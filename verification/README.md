# A model of the Bitcoin bridge clients

The repository holds the off-chain clients of a Bitcoin bridge: the vault with its light Bitcoin
wallet, the header relay, the price oracle, the faucet, and the runner that keeps a client up to
date. This project models the algorithms and protocols in them that carry money or whole-run
guarantees, and proves those guarantees. The Bitcoin node, the electrs server, the parachain, the
clock and the operating system are parameters or nondeterministic steps.

One module per component:

- `Transactions`: scripts, OP_RETURN and payment lookup, and the sizes of BIP 141, section
  "Transaction size calculations".
- `Wallet`, `WalletFees`: the coin stream, greedy selection, change and dust; what a funded
  transaction pays.
- `FeeBump`: replace-by-fee (BIP 125, section "Implementation Details") and every chain of
  replacements.
- `Scan`, `Execution`: the recovery scan running against a live node, and the decision to pay or to
  follow a payment.
- `Relay`: fork finding, batches, and catching up.
- `Deadlines`, `Cancellation`: payment margins, expiry, and the cancellation scheduler.
- `Rescan`: the persisted rescan range, its chunks, and crashes at any point.
- `Oracle`, `Routes`: price routes, their validation, and exactly which routes are right.
- `Delay`, `Shutdown`, `Faucet`, `Updater`, `Symbols`: the random delay, the shutdown signal, the
  faucet cooldown, the auto-updater, and currency symbols.

Code that updates state step by step is written as classes and loops. Each method is proved equal to
a step function on values, or meets its property directly, and the theorems about whole runs are
about those step functions.

Where the code does something else than its comments or names suggest, the model follows the code:

- The coin stream ends at the first address without coins, not after the last address
  (`Wallet.StreamEndsAtFirstEmptyAddress`; exact condition in `Wallet.StreamOffersAllIff`), so a wallet
  that holds enough can fail to pay (`Wallet.RichWalletFallsShort`; without such a gap it pays,
  `Wallet.FundedIffHeldEnough`).
- A coin worth less than its own input fee counts as worth nothing and still costs its fee, so the
  fee falls short (`WalletFees.SmallCoinFallsShort`; exact condition, with and without change, in
  `WalletFees.FeeSufficesIff`).
- A replacement that drops its change can pay too little more to be relayed
  (`FeeBump.RelayRuleCanFail`; exact condition in `FeeBump.PaysForRelayIff`).
- With a stop height of 0 no scan ever ends (`Scan.ZeroStopNeverEnds`), with any other it does
  (`Scan.ScanEnds`). A stop height two or more above the tip can miss a transaction
  (`Scan.HighStopHeightMisses`; exact condition in `Scan.AlwaysCompleteIff`), so a vault whose node lags
  behind can pay twice (`Execution.LaggingNodePaysAgain`; exact condition in
  `Execution.RecoverySafeIff`).
- A relay that shares only a header at height 0 with the backing chain is told to start at 0 again
  and makes no progress (`Relay.ComputeStartHeight`, `Relay.GenesisIsSharedAlone`; exact condition in
  `Relay.CallProgressesIff`).
- After a failed refresh the cancellation scheduler trusts an empty list
  (`Cancellation.FailedRefreshForgets`; exact condition in `Cancellation.EventKeepsCompleteIff`).
- A prune height above the queued end inverts the rescan range
  (`Rescan.InvertedRangeYieldsInvertedChunk`), and a tip that went down drops queued heights
  (`Rescan.UpdateKeepsIff`).
- Route validation accepts routes that price another pair (`Oracle.ValidRouteWrongPair`) and routes
  that return the configured pair at a wrong price (`Routes.ValidRouteWrongPrice`). Exactly the right
  routes are characterised, from the configured pairs alone, in `Routes.RouteRightIff`.
- Records of the faucet lose the fraction of a second (`Faucet.LostSecond`; exact condition in
  `Faucet.FullCooldownIff`), and a failed request removes the record of another one's grant
  (`Faucet.FailureErasesGrant`; exact condition in `Faucet.GrantedIff`).
- A failed wait lets the updater forget a client that still runs (`Updater.FailedWaitLeavesTwo`;
  exact condition in `Updater.StepKeepsInvIff` and, over runs, `Updater.StrayIff`).
- The registries do not look for duplicates (`Symbols.InverseIff`), and a foreign asset whose symbol
  starts with `Q` can be shadowed (`Symbols.PrefixedForeignIsShadowed`; exact condition in
  `Symbols.RoundTripsIff`).

## Model

| member | source | states |
|---|---|---|
| `Transactions.FromScriptRoundTrip` | bitcoin/src/lib.rs:1170-1179 | any script that decodes to an address is exactly the script of that address, so comparing addresses compares scripts |
| `Transactions.ScriptPubkeyRoundTrip` | bitcoin/src/light/wallet.rs:417-438 | every well-formed address is recovered from the script its payment output carries |
| `Transactions.OpReturnHasNoAddress` | bitcoin/src/lib.rs:1156-1179 | an OP_RETURN output is never mistaken for a payment or a return-to-self output |
| `Transactions.OpReturnIff` | bitcoin/src/lib.rs:1151-1167 | the lookup returns given data if and only if the first OP_RETURN output among the first three carries it |
| `Transactions.PaymentAmountIff` | bitcoin/src/lib.rs:1170-1179 | the amount found is the value of the first output that pays to the destination, and there is one if and only if such an output exists |
| `Transactions.ReturnToSelfIff` | bitcoin/src/lib.rs:1191-1214 | the return-to-self lookup names the only output with a value and an address other than the destination, and tells none from several |
| `Transactions.SerializeWitnessSize` | bitcoin/src/light/wallet.rs:39-48 | the accumulating loop returns the serialized size of the witness stack |
| `Transactions.VarIntWidths` | bitcoin/src/light/wallet.rs:27-48 | a count takes one byte up to 252, then a marker and the fewest of 2, 4 or 8 bytes |
| `Transactions.InputSizeIs68` | bitcoin/src/light/wallet.rs:96-105 | every dummy-signed input is 68 virtual bytes, whatever its outpoint |
| `Transactions.MaximumSignedVSizeClosedForm` | bitcoin/src/light/wallet.rs:108-121 | the estimated size is overhead plus outputs plus 68 per input for every transaction with an input: rounding never shows |
| `Transactions.SignedNeverLarger` | bitcoin/src/light/wallet.rs:57-81 | signing with real signatures never exceeds the size the fee was computed from |
| `Wallet.CoinStream.Next` | bitcoin/src/light/wallet.rs:206-258 | each call yields the head of the specified item sequence (previous inputs, then each address's coins up to the first empty address) and leaves the tail |
| `Wallet.StreamEndsAtFirstEmptyAddress` | bitcoin/src/light/wallet.rs:241-246 | coins of any address after the first empty one are never offered |
| `Wallet.StreamOffersAllIff` | bitcoin/src/light/wallet.rs:206-258 | if every address is answered, the stream offers exactly the coins of all addresses if and only if no address with coins comes after an empty one |
| `Wallet.MinViableChange` | bitcoin/src/light/wallet.rs:305-318 | the least worthwhile change is positive and never below the dust threshold |
| `Wallet.GetFeeBounds` | bitcoin/src/light/wallet.rs:127-132 | short of saturation the fee is the product of rate and size rounded up |
| `Wallet.DustThresholds` | bitcoin/src/light/wallet.rs:193-202 | 546 satoshi for a key-hash output and 294 for a witness key-hash output |
| `Wallet.SelectCoins.Add` | bitcoin/src/light/wallet.rs:162-164 | a coin is appended and nothing else changes |
| `Wallet.SelectIsGreedy` | bitcoin/src/light/wallet.rs:339-375 | selection succeeds with exactly the shortest non-empty prefix of the usable coins whose effective value reaches the target, reports a shortage only if no prefix does, and each of the two other failures only for the first unknown coin, coming up before the target is reached, that lacks a script or a key |
| `Wallet.DraftIsCovered` | bitcoin/src/light/wallet.rs:375-391 | inputs cover recipients plus change, so the fee subtraction never underflows |
| `Wallet.Assemble` | bitcoin/src/light/wallet.rs:375-402 | the result spends the selected coins in order, keeps the requested outputs as a prefix, adds at most one output, and pays out no more than the coins hold |
| `Wallet.FundingIsGreedy` | bitcoin/src/light/wallet.rs:288-406 | funding succeeds if and only if the change key is held and some known, shortest-sufficient prefix of the usable coins exists; that prefix is unique and is what it spends; a shortage excludes every prefix; the other failures name what the first coin in the way lacks |
| `Wallet.SpendableIff` | bitcoin/src/light/wallet.rs:339-346 | a coin can be used if and only if it comes before the first failed query and is not an output of the replaced transaction |
| `Wallet.FundedInputsAreSpendable` | bitcoin/src/light/wallet.rs:342-373 | each funded input was offered with its value, carries the script electrs reports under a key of the wallet, and is never an output of the replaced transaction |
| `Wallet.EmptyAddressHidesCoins` | bitcoin/src/light/wallet.rs:339-345 | whatever inputs funding starts from, addresses after the first empty one add nothing to the usable coins |
| `Wallet.RichWalletFallsShort` | bitcoin/src/light/wallet.rs:241-246 | a wallet that holds enough reports a shortage with the empty address first, and pays with the same addresses the other way round |
| `Wallet.FundedIffHeldEnough` | bitcoin/src/light/wallet.rs:288-406 | without such a gap, a new payment from known coins is funded if and only if the wallet holds a coin and all its coins together reach the target |
| `Wallet.AddCoin` | bitcoin/src/light/wallet.rs:348-373 | one round of the loop keeps accumulator, remaining target and unsigned transaction in step with the coins taken |
| `Wallet.AddChange` | bitcoin/src/light/wallet.rs:375-402 | the two-stage change computation yields the specified transaction |
| `Wallet.FundTransaction` | bitcoin/src/light/wallet.rs:288-406 | the loop over the live coin stream returns the specified funding outcome for every stream, including both error paths |
| `WalletFees.NoDeficit` | bitcoin/src/light/wallet.rs:142-147 | saturation hides nothing exactly when every coin is worth its own input fee |
| `WalletFees.ValueIsEffectivePlusFees` | bitcoin/src/light/wallet.rs:166-174 | value held by the inputs is their effective value plus their fees, less the hidden deficit |
| `WalletFees.GetFeeMonotone` | bitcoin/src/light/wallet.rs:127-132 | fees grow with rate and size |
| `WalletFees.GetFeeSubadditive` | bitcoin/src/light/wallet.rs:127-132 | paying for two parts separately is never less than paying for the whole, with rounding and saturation |
| `WalletFees.AssembledSize` | bitcoin/src/light/wallet.rs:108-121 | moving the excess into the change output leaves the estimated size unchanged |
| `WalletFees.FeePaidIs` | bitcoin/src/light/wallet.rs:389-399 | the fee actually paid is the estimate when change absorbs the excess, and whatever is left otherwise |
| `WalletFees.FeeBeforeAdjustment` | bitcoin/src/light/wallet.rs:177-190 | the excess beyond target is change fee plus change, or below the least worthwhile change plus its fee |
| `WalletFees.FundedWithChange` | bitcoin/src/light/wallet.rs:288-406 | at any rate, with each coin worth its input fee, under 253 inputs and a change output that does not lengthen the output count, the fee with change is exactly the fee of the maximum signed size and the change is at least the dust threshold |
| `WalletFees.FundedWithoutChange` | bitcoin/src/light/wallet.rs:288-406 | with each coin worth its input fee and under 253 inputs, the fee without change is at least the fee of the maximum signed size and the outputs are untouched |
| `WalletFees.WholeRateFeeWithChange` | bitcoin/src/light/wallet.rs:375-405 | at a whole rate, for every selection, fee plus shortfall equals rate times maximum signed size |
| `WalletFees.WholeRateFeeWithoutChangeIs` | bitcoin/src/light/wallet.rs:375-405 | without change, fee plus shortfall equals rate times maximum signed size plus the excess over the target |
| `WalletFees.WholeRateFeeWithoutChange` | bitcoin/src/light/wallet.rs:375-405 | without change the same sum lies between the ideal fee and less than min_viable_change plus change_fee above it |
| `WalletFees.ExactFeeIff` | bitcoin/src/light/wallet.rs:144-146 | the fee equals rate times size if and only if, with change, each coin covers its own fee, there are under 253 inputs and the change output does not lengthen the output count, and without change, the excess equals the shortfall |
| `WalletFees.FeeSufficesIff` | bitcoin/src/light/wallet.rs:375-405 | the fee is enough for the maximum signed size if and only if that condition holds with change, or the excess makes up for the shortfall without |
| `WalletFees.SmallCoinFallsShort` | bitcoin/src/light/wallet.rs:144-146 | a concrete funding that pays 58 satoshi less than its size calls for |
| `WalletFees.FundedIsAssembled` | bitcoin/src/light/wallet.rs:288-406 | every funded transaction is the assembly of exactly the coins it spends, which reach the target |
| `WalletFees.FundedTransactionPays` | bitcoin/src/light/wallet.rs:288-406 | for every outcome of funding at any rate, inputs are outputs plus a fee; under the sound-estimate conditions the fee is exact with change above dust, and sufficient without change |
| `WalletFees.FundedAtWholeRate` | bitcoin/src/light/wallet.rs:288-406 | at a whole rate the fee is rate times maximum signed size with change, and without change exceeds it by less than min_viable_change plus change_fee |
| `FeeBump.BumpFee` | bitcoin/src/light/mod.rs:266-291 | removing the change output, clearing witnesses and funding again yields the specified outcome, with both error paths |
| `FeeBump.ReturnToSelfIsAnOutput` | bitcoin/src/lib.rs:1201-1214 | the return-to-self lookup names an existing output, with that output's script and not the destination's |
| `FeeBump.ReturnToSelfIsChange` | bitcoin/src/lib.rs:1191-1214 | on a payment the lookup finds the change output exactly when it has a value and an address of its own, and never two |
| `FeeBump.FundedPays` | bitcoin/src/light/mod.rs:50-66 | whatever inputs funding started from, the signed result pays exactly the requested outputs from a prefix of the usable coins |
| `FeeBump.PaymentShape` | bitcoin/src/light/wallet.rs:375-401 | a payment is its fixed outputs plus at most one output to the change script |
| `FeeBump.BumpSucceedsIff` | bitcoin/src/light/mod.rs:266-291 | a payment can be replaced if and only if it has a change output, its key is held, and known coins, old inputs first, reach the target at the new rate; without a change output the bump panics |
| `FeeBump.BumpStrips` | bitcoin/src/light/mod.rs:266-291 | a bump funds the original outputs again, to the same change script |
| `FeeBump.OldCoinsComeFirst` | bitcoin/src/light/wallet.rs:227-240 | the coins offered to a replacement start with the inputs of its predecessor, or are cut off inside them |
| `FeeBump.FeeRateBounds` | bitcoin/src/light/mod.rs:347-366 | the measured rate is the fee per vbyte rounded down, and missing exactly for a size of zero |
| `FeeBump.ReplacementStep` | bitcoin/src/light/mod.rs:266-291 | a replacement keeps payment outputs, change script and first input, and at an equal or higher rate every input in place |
| `FeeBump.MeasuredRateAtLeastFunded` | bitcoin/src/light/mod.rs:347-366 | the rate measured on a signed transaction is never below the rate it was funded at, under the funding conditions |
| `FeeBump.FeeWithChange` | bitcoin/src/light/wallet.rs:389-399 | a sound payment with change pays exactly its rate times its maximum signed size |
| `FeeBump.FeeDifference` | bitcoin/src/light/mod.rs:266-291 | a replacement with change pays at least the rate increase for its whole size more; one without change pays the old change and the added coins more |
| `FeeBump.FeeRises` | bitcoin/src/light/mod.rs:266-291 | every sound replacement at a higher rate pays a strictly higher absolute fee, as rule 3 of BIP 125 demands |
| `FeeBump.PaysForRelayIff` | bitcoin/src/light/mod.rs:266-291 | the fee increase also pays for relaying the replacement, as rule 4 of BIP 125 demands, if and only if the replacement keeps a change output or the old change and the added coins are worth it |
| `FeeBump.RelayRuleCanFail` | bitcoin/src/light/mod.rs:266-291 | a concrete replacement that drops its change and falls 31 satoshi short of rule 4 |
| `FeeBump.TryBump` | vault/src/execution.rs:275-350 | one estimate replaces the payment only if it beats the measured rate, the payment is in the mempool, and the bump is accepted |
| `FeeBump.WaitForInclusion` | vault/src/execution.rs:256-361 | the loop over estimates produces the specified history of payments, or one payment if replacing is switched off |
| `FeeBump.FirstPaymentIsGood` | bitcoin/src/light/mod.rs:68-79 | a created payment satisfies the invariant of the chain |
| `FeeBump.UpdateStep` | vault/src/execution.rs:256-361 | each estimate keeps that invariant and the first input, and raises the rate when it replaces |
| `FeeBump.UpdateEvolves` | vault/src/execution.rs:275-350 | an estimate replaces the payment if and only if it beats the measured rate, the payment is measurable and in the mempool, can be funded again at the estimate, and the result is accepted; it is then known by the broadcast txid and spends no output of what it replaces |
| `FeeBump.HistoryEvolves` | vault/src/execution.rs:256-361 | every step of the history that the wait returns follows that rule, for any sequence of estimates |
| `FeeBump.TxidIsLastBroadcast` | vault/src/execution.rs:335-345 | at every point the payment is waited for under the txid of the last accepted broadcast, or the first one |
| `FeeBump.ChainKeepsPayment` | bitcoin/src/light/mod.rs:266-291 | every transaction of every chain of replacements pays the same outputs and spends the same first input |
| `FeeBump.ChainRatesIncrease` | vault/src/execution.rs:256-361 | along every chain with sound estimates the requested rates strictly increase and every replacement spends all inputs of its predecessors |
| `FeeBump.ChainFeesIncrease` | vault/src/execution.rs:256-361 | along every chain with sound estimates each replacement pays a strictly higher absolute fee than all its predecessors |
| `FeeBump.AtMostOneMined` | bitcoin/src/light/mod.rs:266-291 | a valid Bitcoin chain contains at most one transaction of a chain of replacements |
| `FeeBump.ChainMatchesRequest` | vault/src/execution.rs:656-665 | every transaction of the chain is recognised as payment of its request if and only if the amount fits in u64 |
| `Scan.BlockStream.Next` | bitcoin/src/iter.rs:65-115 | each poll of the block stream makes the specified step, and ends for good once it has ended |
| `Scan.HeightCheckEndsStream` | bitcoin/src/iter.rs:84-96 | whatever the node answers, a poll after the first block ends the stream exactly when the stop height is positive and has been reached, or the block is pruned |
| `Scan.PollAnswers` | bitcoin/src/iter.rs:84-112 | for every answer of the node: a failed question is reported and changes nothing, a block at or above the stop height is yielded and remembered, and the first poll ends the stream exactly for a tip below the stop height or a pruned block |
| `Scan.FindBlockByHash` | bitcoin/src/iter.rs:97-102 | on a hash-linked chain, asking by hash gives the block at that height |
| `Scan.PollBlock` | bitcoin/src/iter.rs:65-115 | a block request fetches the block right below the last one or ends the scan |
| `Scan.PollKeepsReachable` | bitcoin/src/iter.rs:21-115 | every poll keeps the scan's own invariant |
| `Scan.PollKeepsAccounted` | bitcoin/src/iter.rs:21-63 | no poll loses a transaction that still has to be reported |
| `Scan.NodeStepKeeps` | bitcoin/src/lib.rs:829-843 | neither does the node when it mines or receives transactions in between |
| `Scan.RunKeeps` | bitcoin/src/iter.rs:21-115 | both over any interleaving |
| `Scan.ScanIsComplete` | bitcoin/src/iter.rs:21-115 | in every interleaving with block production, a finished scan has yielded every transaction that was in the mempool or in a block at or above the stop height at its start |
| `Scan.BlocksExactlyOnce` | bitcoin/src/iter.rs:21-115 | what a finished scan has yielded is transactions fetched from the mempool in listed order, then the transactions of exactly the blocks from the chosen tip down to the stop height, each once, in descending order |
| `Scan.PollProgresses` | bitcoin/src/iter.rs:65-115 | every poll of an unfinished scan reduces a bound on the polls left that the node cannot increase |
| `Scan.ScanEnds` | bitcoin/src/iter.rs:65-115 | with a stop height of at least 1, every run with enough polls for the mempool list and the blocks finishes, whatever the node does in between |
| `Scan.ZeroStopNeverEnds` | bitcoin/src/iter.rs:84-96 | with a stop height of 0 no run ever ends, whatever the node does |
| `Scan.HighStopHeightMisses` | bitcoin/src/iter.rs:186-190 | for every node and every stop height two or more above the tip, a run that finishes and reports nothing at all, whatever the mempool held |
| `Scan.AlwaysCompleteIff` | bitcoin/src/iter.rs:21-115 | every finished run reports everything visible at its start if and only if the stop height is at most one above the tip or the mempool is empty |
| `Execution.Collect` | vault/src/execution.rs:505-509 | the map is keyed by request hash and holds an entry for every open request |
| `Execution.StartHeight` | vault/src/execution.rs:512-519 | the scan stops at the least opening height of all open requests, which a request without a height never lowers, and there is none exactly when nothing is open |
| `Execution.LookupIsExact` | vault/src/execution.rs:656-665 | the lookup returns the one open request a transaction pays in full, or none exactly when it pays none |
| `Execution.FollowScanned` | vault/src/execution.rs:523-569 | each open request is followed at most once, by the first scanned transaction that pays it, and those left over were paid by none |
| `Execution.ExecuteOpenRequests` | vault/src/execution.rs:505-652 | at most one action per request, every action justified by scan and lookup; a completed run has followed the first reported payment, else the transaction looked up, else paid, unless the lookup failed |
| `Execution.JustifiedIsSettled` | vault/src/execution.rs:523-652 | justified actions, one per request, leave nothing open about what was done for each request |
| `Execution.NoDoublePayment` | vault/src/execution.rs:505-652 | an action justified by the report of a finished scan never pays a request whose payment was visible when the scan started |
| `Execution.ValuesOf` | vault/src/execution.rs:512-515 | lists exactly the open requests |
| `Execution.Recover` | vault/src/execution.rs:505-652 | from the collected requests through the scan down to their least height to the actions taken, in every interleaving: at most one action per request, each justified by that report and the lookups, every request settled accordingly unless an address does not convert; and, if some request is at most one block above the tip, no new payment for a request already paid when the scan started |
| `Execution.LaggingNodePaysAgain` | vault/src/execution.rs:505-652 | if every request lies two or more blocks above the local tip, a run after which every request is paid, also those whose payment was in the mempool |
| `Execution.RecoverySafeIff` | vault/src/execution.rs:505-652 | every finished scan notices every open request already paid if and only if the least height is at most one above the tip or none was paid |
| `Relay.FirstUnstored` | vault/src/relay/mod.rs:49-57 | everything below the result is stored and the header at it is not |
| `Relay.NothingAboveGap` | vault/src/relay/mod.rs:49-57 | nothing of the backing chain above its first unstored header is stored |
| `Relay.CommonBelow` | vault/src/relay/mod.rs:42-47 | a common block puts the relay's first header on the backing chain |
| `Relay.ComputeStartHeight` | vault/src/relay/mod.rs:35-61 | succeeds if and only if the backing chain reaches the relay's best height and shares a block; the answer is the first unstored header on any fork, except exactly in the height-0 case |
| `Relay.GenesisIsSharedAlone` | vault/src/relay/issuing.rs:118-121 | the height-0 case occurs right after initialization at height 0 |
| `Relay.CollectHeaders` | vault/src/relay/mod.rs:20-30 | returns the consecutive headers, or nothing if one is missing |
| `Relay.Initialize` | vault/src/relay/mod.rs:127-137 | initialization establishes the relay's invariant at the start height, or at the block count less confirmations, and fails exactly if the header does not exist |
| `Relay.StoreAdds` | vault/src/relay/issuing.rs:97-107 | storing a batch adds its headers at their heights and keeps all others |
| `Relay.StoringKeepsValid` | vault/src/relay/mod.rs:139-182 | a good batch keeps the tree of stored headers well formed |
| `Relay.Issuing.SubmitHeaders` | vault/src/relay/issuing.rs:73-107 | a submission stores the batch and keeps the invariant even if the relay reorganises |
| `Relay.SubmitNext` | vault/src/relay/mod.rs:127-185 | every accepted submission is a contiguous run of unstored backing headers on a stored parent, each with the configured confirmations on top, and as many as batch size and confirmations allow; only a relay that shares nothing but a header at height 0 is sent stored headers |
| `Relay.NextBatchIsGood` | vault/src/relay/mod.rs:139-150 | the batch computed from the start height is such a run |
| `Relay.CallReducesMissing` | vault/src/relay/mod.rs:139-182 | each call stores a full batch as long as something is missing, unless only a header at height 0 is shared |
| `Relay.CallProgressesIff` | vault/src/relay/mod.rs:139-182 | with something missing, a call makes progress if and only if the relay shares more than a header at height 0 |
| `Relay.RunReducesMissing` | vault/src/relay/mod.rs:127-185 | so does every run, in any order with other relayers and reorganisations |
| `Relay.CatchUp` | vault/src/relay/mod.rs:127-185 | after ceil(missing / max_batch_size) calls made while more than a header at height 0 is shared, every backing header with the configured confirmations on top is stored |
| `Relay.AboveZeroIsPastGenesis` | vault/src/relay/issuing.rs:118-121 | a relay started above height 0 always meets that condition |
| `Deadlines.ToBitcoinBlocksTotal` | vault/src/execution.rs:45-62 | on every u32 the conversion succeeds and is one block per 50, rounded up |
| `Deadlines.ToBitcoinBlocksMonotone` | vault/src/execution.rs:45-62 | the conversion is monotone |
| `Deadlines.ToBitcoinBlocksSubadditive` | vault/src/execution.rs:45-62 | and subadditive |
| `Deadlines.GoesAheadIff` | vault/src/execution.rs:71-101 | when the payment deadline exists without overflow, and that a payment goes ahead if and only if the parachain is below open time plus period less margin or Bitcoin below its counterpart |
| `Deadlines.ExpiredIff` | vault/src/cancellation.rs:285-306 | when the scheduler's deadline exists, and that a request is expired if and only if both chains are past opening plus the longer of the two periods |
| `Deadlines.PaymentIsTimely` | vault/src/execution.rs:180-186 | whenever a payment goes ahead the request is not expired for any global period, and on one chain more than the margin is left |
| `Deadlines.ExpiredIsPastOwnPeriod` | vault/src/cancellation.rs:285-306 | an expired request is past its own period on both chains |
| `Cancellation.ConvertAll` | vault/src/cancellation.rs:272-311 | a refresh converts every request, or fails exactly if one deadline overflows |
| `Cancellation.ListedExpiresIff` | vault/src/cancellation.rs:272-311 | a listed request is drained if and only if both chains are past its opening plus the longer of the global and its own period |
| `Cancellation.DrainConserves` | vault/src/cancellation.rs:152-167 | draining loses and duplicates nothing |
| `Cancellation.DrainSplits` | vault/src/cancellation.rs:152-167 | exactly the requests past both deadlines are drained |
| `Cancellation.DrainExpired` | vault/src/cancellation.rs:152-167 | the removing loop computes that split, in order |
| `Cancellation.CancellationScheduler.CancelRequests` | vault/src/cancellation.rs:207-223 | exactly the requests not past both deadlines stay listed, the others are cancelled in order up to the first refusal, and the list stays Valid if and only if none is refused |
| `Cancellation.CancellationScheduler.ProcessEvent` | vault/src/cancellation.rs:225-270 | a block event sets the height of its own chain and nothing else does; what each event leaves listed, cancelled and trusted, from the refreshed list if the old one was Invalid |
| `Cancellation.StepKeepsInv` | vault/src/cancellation.rs:207-311 | each step of scheduler or chain keeps the safety invariant |
| `Cancellation.StepKeepsComplete` | vault/src/cancellation.rs:225-270 | each step whose refresh succeeds keeps the list complete |
| `Cancellation.CancelsAreDue` | vault/src/cancellation.rs:207-311 | in every run a cancel is sent only for an opened request past its period on both chains, by the blocks delivered to the scheduler |
| `Cancellation.ListIsComplete` | vault/src/cancellation.rs:207-311 | in every run whose refreshes succeed, a trusted list with no Opened event pending holds every pending request |
| `Cancellation.InitialIsGood` | vault/src/cancellation.rs:193-205 | the start state satisfies both invariants |
| `Cancellation.FailedRefreshForgets` | vault/src/cancellation.rs:236-241 | after a failed refresh the trusted list is complete if and only if nothing is pending |
| `Cancellation.EventKeepsCompleteIff` | vault/src/cancellation.rs:225-270 | an event keeps the list complete if and only if its refresh worked, an Opened event is involved, or nothing is pending |
| `Rescan.RescanStatus.Update` | vault/src/issue.rs:89-107 | the loop over new issues computes the specified status |
| `Rescan.RescanStatus.Prune` | vault/src/issue.rs:112-122 | the whole new state and the cut-off range |
| `Rescan.RescanStatus.ProcessBlocks` | vault/src/issue.rs:124-134 | the whole new state and the chunk |
| `Rescan.UpdateCovers` | vault/src/issue.rs:89-107 | an update keeps every queued height up to the tip and queues every height of every new issue up to it |
| `Rescan.UpdateNewest` | vault/src/issue.rs:89-107 | after an update the newest height is exactly the largest of the old one and the opentimes given |
| `Rescan.UpdateKeepsIff` | vault/src/issue.rs:89-107 | for any list of issues, a queued height survives if and only if nothing is new or it is not above the larger of the tip and the least height asked for |
| `Rescan.AddIssuesRange` | vault/src/issue.rs:93-107 | an update with new issues leaves the range from the least height asked for to the tip |
| `Rescan.PruneSplits` | vault/src/issue.rs:112-122 | pruning splits the queued heights, the part cut off being exactly those from the start to below the prune height, and the rest is a proper range if and only if the prune height is not above its end |
| `Rescan.ProcessSplits` | vault/src/issue.rs:124-134 | a chunk and the rest together hold exactly the queued heights and share none |
| `Rescan.ChunkSizeIs` | vault/src/issue.rs:124-134 | a chunk begins where the range does and has the size asked for or all that is left |
| `Rescan.TilesCover` | vault/src/issue.rs:198-221 | contiguous chunks cover the range exactly and no height twice |
| `Rescan.RescanInChunks` | vault/src/issue.rs:196-221 | for any scan durations the adaptive loop terminates, its chunks tile the queued range, and all but the last have the size that doubling and halving ask for; an inverted range is one inverted chunk |
| `Rescan.LastChunkIff` | vault/src/issue.rs:124-134 | some chunk size finishes a range if and only if it ends below the largest usize |
| `Rescan.InvertedRangeYieldsInvertedChunk` | vault/src/issue.rs:114-116 | the next chunk is inverted if and only if the prune height is above the queued end |
| `Rescan.StepKeepsInv` | vault/src/issue.rs:145-224 | every step of the driver, including a crash, keeps every recorded height scanned or stored as queued |
| `Rescan.NothingIsLost` | vault/src/issue.rs:145-224 | over any sequence of interrupted runs, every height from a recorded issue's start to the tip at recording is scanned for it or still in the stored range |
| `Rescan.NewestIsListed` | vault/src/issue.rs:145-224 | over any runs the stored newest height is the opentime of an issue some stored run has listed, or 0 |
| `Rescan.StoreRecordsAll` | vault/src/issue.rs:190-193 | storing the status records every issue of the run whose key was imported, if it opened after all issues listed by earlier stored runs |
| `Rescan.InitialIsGood` | vault/src/issue.rs:136-143 | the empty status satisfies the invariant |
| `Oracle.InvertConsistent` | oracle/src/currency.rs:147-152 | inverting keeps a price true |
| `Oracle.ReduceConsistent` | oracle/src/currency.rs:187-208 | in all four orientations, reducing two true prices that share a currency gives a true price |
| `Oracle.ReduceSoundIff` | oracle/src/currency.rs:187-208 | sharing a currency is exactly what makes reduction right for every valuation |
| `Oracle.FoldKeepsPairs` | oracle/src/feeds.rs:132-150 | the pair a route folds to depends on its pairs alone |
| `Oracle.FoldConsistent` | oracle/src/feeds.rs:132-150 | over any chained route the folded price is true for the pair it ends with |
| `Oracle.WalkFolds` | oracle/src/feeds.rs:132-150 | a walk through distinct currencies folds to the pair of its ends, in any orientation of the feed pairs |
| `Oracle.RoutePrice` | oracle/src/feeds.rs:132-150 | for every such walk between the sides of the target, the result is the target pair at its true price |
| `Oracle.ChainedRouteIff` | oracle/src/feeds.rs:132-150 | for a chained route at given feeds, the result is the true target price if and only if the pairs fold to the target or its inverse |
| `Oracle.ConnectedWindows` | oracle/src/config.rs:70-78 | the window check passes if and only if all neighbours share a currency |
| `Oracle.ValidateIff` | oracle/src/config.rs:49-82 | validation accepts a route if and only if its first pair holds a side of the target, its last pair the other side, and neighbours share a currency; each rejection names its reason |
| `Oracle.WalkIsValid` | oracle/src/config.rs:49-82 | validation accepts every such walk |
| `Oracle.ValidRouteWrongPair` | oracle/src/config.rs:49-82 | a concrete route that passes validation and prices another pair |
| `Routes.FoldIsMonomial` | oracle/src/currency.rs:187-208 | with true feeds the folded price is the product of currency values to exponents that the pairs alone determine |
| `Routes.FeedsAreForced` | oracle/src/feeds.rs:111-130 | true feeds for a route are determined by its pairs and the valuation |
| `Routes.RouteRightIff` | oracle/src/feeds.rs:132-150 | for every route, chained or not: true feeds give the target at its true price for all positive valuations if and only if the pairs fold to the target or its inverse and every exponent cancels to base over quote |
| `Routes.ChainedCancels` | oracle/src/currency.rs:187-208 | on a chained route all exponents but those of its end pair cancel |
| `Routes.ChainedRightIff` | oracle/src/feeds.rs:132-150 | a chained route is right for all valuations if and only if it folds to the target or its inverse |
| `Routes.ValidRouteWrongPrice` | oracle/src/config.rs:49-82 | a route that passes validation and returns the configured pair at twice its true price |
| `Routes.UnchainedRouteRight` | oracle/src/config.rs:49-82 | a validated route that is not chained and still always right |
| `Delay.RankInjective` | vault/src/delay.rs:49-66 | distinct listed accounts have distinct ranks |
| `Delay.LowerHashActsFirst` | vault/src/delay.rs:49-66 | the order of the hashes is the order of the delays |
| `Delay.RankWindow` | vault/src/delay.rs:49-66 | a window of ranks holds no more accounts than its size |
| `Delay.FewWaitLittle` | vault/src/delay.rs:49-66 | at most 2^(d+1) - 1 distinct listed accounts wait d blocks or fewer |
| `Delay.FewWaitExactly` | vault/src/delay.rs:49-66 | at most 2^d wait exactly d blocks |
| `Delay.SomeoneActsNowAndNobodyWaitsLong` | vault/src/delay.rs:49-66 | some listed account does not wait, and no delay exceeds log2 of the list length plus one |
| `Shutdown.ShutdownSender.Send` | runtime/src/shutdown.rs:22-30 | a whole send keeps the invariant and afterwards the first recv of everybody listening returns |
| `Shutdown.ShutdownSender.SubscribeReceiver` | runtime/src/shutdown.rs:32-43 | a whole subscribe keeps the invariant, and its recv returns if a send had completed before |
| `Shutdown.StepKeepsInv` | runtime/src/shutdown.rs:22-43 | every interleaved step keeps: a completed send has reached every ready receiver by message or flag |
| `Shutdown.ShutdownReachesEveryone` | runtime/src/shutdown.rs:22-68 | in every interleaving, after a completed send the first recv of every subscribed receiver returns, and none returns before a send has begun |
| `Faucet.Store.CheckAndRecord` | faucet/src/http.rs:194-219 | grants exactly when allowed, and then records the whole second and the account type |
| `Faucet.Store.Remove` | faucet/src/http.rs:282-309 | after a failed request the account may ask again at once, and what every other account may ask for is unchanged |
| `Faucet.Store.Advance` | faucet/src/http.rs:194-309 | the code run at each event makes exactly the step of the interleaving model |
| `Faucet.Store.Serve` | faucet/src/http.rs:238-309 | the faucet itself, under any interleaving of requests, ticks, transfers and failures, keeps the spacing of grants |
| `Faucet.StepKeepsInv` | faucet/src/http.rs:238-309 | every step of concurrent requests keeps the record equal to what the last grant or removal left, and consecutive grants spaced |
| `Faucet.ThreeInARow` | faucet/src/http.rs:127-150 | three grants in a row are more than the cooldown less a second, plus a nanosecond, apart |
| `Faucet.CooldownHolds` | faucet/src/http.rs:127-261 | in every interleaving, with no removal of the record in between, two grants closer than the cooldown by a second less a nanosecond or more are a User grant and the Vault grant right after it |
| `Faucet.ClosePairNeedsFailure` | faucet/src/http.rs:282-309 | two successful grants of one kind that close have, in between, a removal of the record by the failure of yet another request |
| `Faucet.GrantedIff` | faucet/src/http.rs:152-261 | in every reachable state, a request decided now is granted if and only if nothing was granted since the record was last removed, the cooldown has passed since the whole second of the last grant, or a user has become a vault |
| `Faucet.FailureErasesGrant` | faucet/src/http.rs:282-309 | a concrete run in which the failure of one request erases the record of another's successful Vault grant and a second Vault grant succeeds at once |
| `Faucet.LostSecond` | faucet/src/http.rs:113-125 | on a nanosecond clock that bound is tight: a run with two grants of the same kind one nanosecond beyond it, for every such time and cooldown |
| `Faucet.TwoRequestsGet` | faucet/src/http.rs:127-261 | for all times, what two requests in a row are granted |
| `Faucet.FullCooldownIff` | faucet/src/http.rs:135-150 | a second grant within the full cooldown is possible if and only if the first was not made at a whole second, unless a user becomes a vault |
| `Updater.RunnerProcess.TerminateProcAndWait` | runner/src/runner.rs:221-253 | the whole new state for each answer of wait; a failed kill goes unnoticed and only a process id that does not convert is an error |
| `Updater.RunnerProcess.SpawnBinary` | runner/src/runner.rs:381-394 | refuses while a child is held or no release is there, else holds the new child |
| `Updater.RunnerProcess.MaybeRestartClient` | runner/src/runner.rs:356-379 | restarts exactly a client that is gone |
| `Updater.StepKeepsInvIff` | runner/src/runner.rs:295-394 | a step, signal or crash keeps "only the held child can be alive" if and only if it does not fail to wait on a running child |
| `Updater.OneClientAtMost` | runner/src/runner.rs:295-354 | in every reachable state at most one client is alive, and none when run returns Ok, provided no wait failed on a running child |
| `Updater.DeadClientRestarts` | runner/src/runner.rs:356-379 | on the next pass a client that died is running again under the same release, and one that runs is left alone |
| `Updater.NewReleaseRuns` | runner/src/runner.rs:329-352 | a new release replaces the client once the old one is gone, and the release already running changes nothing |
| `Updater.FirstReleaseRuns` | runner/src/runner.rs:311-328 | at the start the release on chain is loaded or downloaded, and run |
| `Updater.ExitTerminates` | runner/src/runner.rs:295-309 | on a signal or after any error the client is terminated before run returns |
| `Updater.RunnerProcess.Advance` | runner/src/runner.rs:295-354 | the code between two await points makes exactly the step of the state machine |
| `Updater.RunnerProcess.Run` | runner/src/runner.rs:295-354 | the updater itself, under any schedule of answers, deaths and signals, has at most one client alive, the one it holds, and none when it returns Ok |
| `Updater.StrayStays` | runner/src/runner.rs:221-253 | a client out of the updater's hands runs on whatever it does, until that client dies by itself |
| `Updater.StrayIff` | runner/src/runner.rs:221-253 | a run has a client running outside the updater's hands if and only if some wait failed on a running child |
| `Updater.FailedWaitLeavesTwo` | runner/src/runner.rs:221-253 | a run from the start with one failed wait that ends with two clients alive |
| `Symbols.InverseIff` | runtime/src/assets.rs:91-105 | after any insertions from empty, the paired maps are inverse if and only if every entry overwritten in one direction is overwritten in the other |
| `Symbols.AssetRegistry.InnerInsert` | runtime/src/assets.rs:30-38 | inserts into both maps, or fails and changes nothing when the symbol is not text |
| `Symbols.AssetRegistry.Extend` | runtime/src/assets.rs:46-53 | inserts in order and stops at the first unreadable symbol |
| `Symbols.LendingAssets.InsertMarket` | runtime/src/assets.rs:91-105 | inserts into both maps |
| `Symbols.LendingAssets.Extend` | runtime/src/assets.rs:107-113 | inserts all in order |
| `Symbols.FilledRegistriesInverseIff` | runtime/src/assets.rs:46-113 | filled registries meet the round-trip conditions if and only if no entry is overwritten in one direction only |
| `Symbols.HardcodedSymbols` | runtime/src/assets.rs:141-158 | the eight hardcoded currencies parse under their symbols, whatever the registries hold |
| `Symbols.SymbolUnique` | runtime/src/assets.rs:193-207 | printing does not depend on the recursion depth allowed |
| `Symbols.ParsePrinted` | runtime/src/assets.rs:141-180 | with inverse registries and no shadowed foreign symbol, parsing a printed symbol in any letter case gives the currency back through any depth of prefixes |
| `Symbols.PrintParsed` | runtime/src/assets.rs:141-207 | whatever parses prints as the same text up to case, and printing it terminates, with no restriction on foreign symbols |
| `Symbols.ParsesIffPrints` | runtime/src/assets.rs:141-207 | under the same conditions a text parses to a currency if and only if it spells that currency's symbol |
| `Symbols.RoundTripsIff` | runtime/src/assets.rs:141-207 | with inverse registries, every printed symbol in any letter case parses back if and only if no foreign symbol is caught by the hardcoded or lend-token branch first |
| `Symbols.PrefixedForeignIsShadowed` | runtime/src/assets.rs:155-157 | a concrete foreign asset starting with Q that parses as a lend token instead |

## Left out

- RPC, HTTP and websocket clients, electrs requests and feed adapters: their answers are parameters or steps.
- Funding and fee bumping through Bitcoin Core: the node chooses inputs and change.
- Signatures, key derivation, hashing, SCALE and PSBT encoding: a witness is the list of its element sizes, and txids and hashes are opaque. That a replacement's txid differs from what its inputs spend is the precondition `NotSelfSpending`.
- Transaction fields that never vary here (version, lock time, empty script_sig, the replaceable sequence number) are only counted in the sizes.
- Sums in u64: unbounded here. `FitsU64` states what the funding code needs; the saturating products and casts are written out. The chain theorems do not repeat the bound for every bump.
- A bump without change panics in the light wallet; the chain model keeps the current payment at that point instead of ending the process.
- Scan.ScanIsComplete: excludes reorganisations, evictions, pruning and RPC errors during the scan, and needs a stop height between 1 and one above the tip; outside that range see `Scan.ZeroStopNeverEnds` and `Scan.AlwaysCompleteIff`.
- `stream_blocks`, `stream_in_chain_transactions` and the forward scan for issue payments: they would repeat the block stream.
- Confirmation waiting on the parachain and Bitcoin metadata polling after inclusion.
- Conversion of requests that fail before `execute_open_requests` collects them, and rate limiting of its loop.
- Execution.Recover: needs opening heights of at least 1, because with 0 the scan never ends (`Scan.ZeroStopNeverEnds`), and enough polls for it to end.
- Relay.SubmitNext: needs a backing chain that is stable during one call. That the relay refuses a submission that starts with a stored header is an assumption about the relay pallet, which is not part of this model. Other relayers and reorganisations of the relay are part of the run theorem.
- Deadlines.PaymentIsTimely: is about requests with a deadline whose computation does not overflow; a request without one is always paid.
- Rescan.NothingIsLost: covers an issue from the moment it is recorded with its key imported; a failed key import or an address that does not convert leaves that issue out, as in the code.
- Rescan.RescanInChunks: needs a range that ends below the largest usize; `Rescan.LastChunkIff` shows why. What the node answers to an inverted chunk is not modelled.
- Oracle.RoutePrice: `f64` is modelled by `real` and prices are non-zero, so rounding, infinities, FixedU128 conversion and the median over feeds are not captured.
- The interleavings of the updater, the shutdown signal and the faucet are steps over values; the classes execute these steps, one at a time for the updater and the faucet, and whole calls for the shutdown signal.
- The content of the downloaded binary, PID files and logs: the recorded checksum is that of the release, and nothing is claimed about the bytes.
- The faucet's concurrency limit, balance checks and signature check: the permit error is not propagated, so there is no bound to state.
- Upper-casing of symbols is ASCII only; whether bytes are valid UTF-8 is a parameter of the metadata.
- Decimals, CoinGecko ids, and the bound of u32 on asset ids.
- Wallet loading, backoff timing, metrics, logging and command lines: plumbing.
