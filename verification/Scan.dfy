/**
 The recovery scan: transactions of the mempool first, then those of the blocks from the tip
 down to `stop_height`, while the node goes on receiving transactions and mining blocks.
 */
module Scan {
  import opened Prelude
  import opened Transactions

  type Hash = nat

  datatype Tx = Tx(id: Txid, body: Transaction)

  datatype Block = Block(hash: Hash, prevHash: Hash, txdata: seq<Tx>)

  // ------------------------------------------------------------------ the block stream

  datatype StreamState = StreamState(height: Option<nat>, prevBlock: Option<Block>)

  // What the node says to the two questions of one step.
  datatype TipAnswer = Tip(height: nat, hash: Hash) | TipError
  datatype BlockAnswer = Got(block: Block) | Pruned | BlockError

  datatype StreamItem = BlockItem(block: Block) | ErrorItem | EndOfStream

  /** Height and hash of the block the stream is about to fetch; `None` if the node fails. */
  function NextTarget(s: StreamState, tip: TipAnswer): Option<(nat, Hash)> {
    if s.height.Some? && s.prevBlock.Some? then Some((SatSub(s.height.value, 1), s.prevBlock.value.prevHash))
    else match tip
      case Tip(height, hash) => Some((height, hash))
      case TipError => None
  }

  function NextBlock(s: StreamState, stop: nat, tip: TipAnswer, answer: BlockAnswer): (StreamItem, StreamState) {
    match NextTarget(s, tip)
    case None => (ErrorItem, s)
    case Some((height, _)) =>
      if height < stop then (EndOfStream, s)
      else match answer
        case Got(block) => (BlockItem(block), StreamState(Some(height), Some(block)))
        case Pruned => (EndOfStream, s)
        case BlockError => (ErrorItem, s)
  }

  /** The unfold state of `reverse_stream_blocks`. */
  class BlockStream {
    var height: Option<nat>
    var prevBlock: Option<Block>
    const stopHeight: nat
    var fused: bool

    constructor (stopHeight: nat)
      ensures State() == StreamState(None, None) && this.stopHeight == stopHeight && !fused
    {
      height, prevBlock, this.stopHeight, fused := None, None, stopHeight, false;
    }

    function State(): StreamState
      reads this
    {
      StreamState(height, prevBlock)
    }

    method Next(tip: TipAnswer, answer: BlockAnswer) returns (item: StreamItem)
      modifies this
      ensures old(fused) ==> item == EndOfStream && State() == old(State()) && fused
      ensures !old(fused) ==> (item, State()) == NextBlock(old(State()), stopHeight, tip, answer)
                              && fused == item.EndOfStream?
    {
      if fused {
        return EndOfStream;
      }
      var nextHeight;
      if height.Some? && prevBlock.Some? {
        nextHeight := SatSub(height.value, 1);
      } else {
        match tip {
          case TipError => return ErrorItem;
          case Tip(h, _) => nextHeight := h;
        }
      }
      if nextHeight < stopHeight {
        fused := true;
        return EndOfStream;
      }
      match answer {
        case Got(block) =>
          height := Some(nextHeight);
          prevBlock := Some(block);
          item := BlockItem(block);
        case Pruned =>
          fused := true;
          item := EndOfStream;
        case BlockError =>
          item := ErrorItem;
      }
    }
  }

  /** When a poll ends the stream, whatever the node answers: once the stop height has been reached,
      which the saturating decrement rules out for 0, or at a pruned block. */
  lemma {:induction false} HeightCheckEndsStream(s: StreamState, stop: nat, tip: TipAnswer, answer: BlockAnswer)
    requires s.height.Some? && s.prevBlock.Some? && s.height.value >= stop
    ensures NextBlock(s, stop, tip, answer).0.EndOfStream? <==> (stop > 0 && s.height.value == stop) || answer.Pruned?
  {
  }

  /** The first poll, and any later one, in full: a failed question is reported and leaves the stream
      where it was, a block at or above the stop height is yielded and remembered, and only a tip below
      the stop height or a pruned block ends the stream at once. */
  lemma {:induction false} PollAnswers(s: StreamState, stop: nat, tip: TipAnswer, answer: BlockAnswer)
    ensures var (item, s') := NextBlock(s, stop, tip, answer);
            var first := s.height.None? || s.prevBlock.None?;
            && (first && tip.TipError? ==> item == ErrorItem)
            && (first && tip.Tip? ==> (item == EndOfStream <==> tip.height < stop || answer.Pruned?))
            && (item.BlockItem? ==> answer == Got(item.block) && s'.prevBlock == Some(item.block) && s'.height.Some?)
            && (item.BlockItem? ==> s'.height.value == if first then tip.height else SatSub(s.height.value, 1))
            && (!item.BlockItem? ==> s' == s)
            && (answer.BlockError? && item == EndOfStream ==>
                  (if first then tip.height else SatSub(s.height.value, 1)) < stop)
  {
  }

  // ------------------------------------------------------------------ the node

  datatype Node = Node(chain: seq<Block>, mempool: map<Txid, Transaction>)

  ghost predicate Linked(chain: seq<Block>) {
    && chain != []
    && (forall h :: 0 < h < |chain| ==> chain[h].prevHash == chain[h - 1].hash)
    && (forall g, h :: 0 <= g < h < |chain| ==> chain[g].hash != chain[h].hash)
  }

  function FindBlock(chain: seq<Block>, hash: Hash): BlockAnswer {
    if chain == [] then BlockError
    else if chain[|chain| - 1].hash == hash then Got(chain[|chain| - 1])
    else FindBlock(chain[..|chain| - 1], hash)
  }

  lemma {:induction false} FindBlockByHash(chain: seq<Block>, h: nat)
    requires Linked(chain) && h < |chain|
    ensures FindBlock(chain, chain[h].hash) == Got(chain[h])
  {
    if h < |chain| - 1 {
      assert chain[h].hash != chain[|chain| - 1].hash;
      FindBlockByHash(chain[..|chain| - 1], h);
    }
  }

  /** No eviction and no reorganisation: blocks are only appended, and a transaction leaves the
      mempool only into the block being appended. */
  ghost predicate NodeStep(n: Node, n': Node) {
    || (n'.chain == n.chain && forall id :: id in n.mempool ==> id in n'.mempool && n'.mempool[id] == n.mempool[id])
    || (&& |n'.chain| == |n.chain| + 1 && n.chain == n'.chain[..|n.chain|] && Linked(n'.chain)
        && forall id :: id in n.mempool ==>
             (id in n'.mempool && n'.mempool[id] == n.mempool[id])
             || Tx(id, n.mempool[id]) in n'.chain[|n.chain|].txdata)
  }

  // ------------------------------------------------------------------ the scan

  // `pending`: mempool transactions listed but not fetched yet. `counted`: the block count once it
  // has been read. `buffer`: transactions of the current block still to be yielded.
  datatype ScanState = ScanState(pending: seq<Txid>, counted: Option<nat>, stream: StreamState,
                                 buffer: seq<Tx>, ended: bool, yielded: seq<Tx>, blocks: seq<nat>)

  function StartScan(listed: seq<Txid>): ScanState {
    ScanState(listed, None, StreamState(None, None), [], false, [], [])
  }

  predicate Finished(s: ScanState) {
    s.ended && s.buffer == [] && s.pending == []
  }

  /** One request of the scan to the node, or one transaction handed to the consumer. */
  function Poll(s: ScanState, n: Node, stop: nat): ScanState
    requires n.chain != []
  {
    if s.buffer != [] then
      s.(buffer := s.buffer[1..], yielded := s.yielded + [s.buffer[0]])
    else if s.pending != [] then
      var id := s.pending[0];
      if id in n.mempool
      then s.(pending := s.pending[1..], yielded := s.yielded + [Tx(id, n.mempool[id])])
      else s.(pending := s.pending[1..])
    else if s.ended then s
    else if s.counted == None && s.stream.height == None then
      s.(counted := Some(|n.chain| - 1))
    else
      var tip := if s.counted.Some? && s.counted.value < |n.chain|
                 then Tip(s.counted.value, n.chain[s.counted.value].hash) else TipError;
      var target := NextTarget(s.stream, tip);
      var answer := if target.Some? then FindBlock(n.chain, target.value.1) else BlockError;
      var (item, stream) := NextBlock(s.stream, stop, tip, answer);
      match item
      case BlockItem(block) =>
        s.(stream := stream, buffer := block.txdata, blocks := s.blocks + [stream.height.value])
      case ErrorItem => s
      case EndOfStream => s.(ended := true)
  }

  datatype Event = PollEvent | NodeEvent(node: Node)

  ghost predicate ValidRun(n: Node, events: seq<Event>)
    decreases |events|
  {
    events == [] ||
    match events[0]
    case PollEvent => ValidRun(n, events[1..])
    case NodeEvent(n') => NodeStep(n, n') && ValidRun(n', events[1..])
  }

  function RunScan(s: ScanState, n: Node, stop: nat, events: seq<Event>): (ScanState, Node)
    decreases |events|
  {
    if events == [] then (s, n)
    else match events[0]
      case PollEvent => RunScan(if n.chain == [] then s else Poll(s, n, stop), n, stop, events[1..])
      case NodeEvent(n') => RunScan(s, n', stop, events[1..])
  }

  /** The node after the events; the scan has no influence on it. */
  function LastNode(n: Node, events: seq<Event>): Node
    decreases |events|
  {
    if events == [] then n
    else LastNode(match events[0] case PollEvent => n case NodeEvent(n') => n', events[1..])
  }

  lemma {:induction false} RunEndsAtLastNode(s: ScanState, n: Node, stop: nat, events: seq<Event>)
    ensures RunScan(s, n, stop, events).1 == LastNode(n, events)
    decreases |events|
  {
    if events != [] {
      match events[0]
      case PollEvent => RunEndsAtLastNode(if n.chain == [] then s else Poll(s, n, stop), n, stop, events[1..]);
      case NodeEvent(n') => RunEndsAtLastNode(s, n', stop, events[1..]);
    }
  }

  // ------------------------------------------------------------------ what every step keeps

  /** First height (exclusive) that the block stream has not passed yet. */
  function Horizon(s: ScanState, n: Node): nat {
    if s.stream.height.Some? then s.stream.height.value
    else if s.counted.Some? then s.counted.value + 1
    else |n.chain|
  }

  ghost predicate Reachable(s: ScanState, n: Node, stop: nat) {
    && Linked(n.chain)
    && (s.stream.height.Some? <==> s.stream.prevBlock.Some?)
    && (s.stream.height.Some? ==> s.counted.Some?)
    && (s.counted.Some? ==> s.pending == [] && s.counted.value < |n.chain|)
    && (s.buffer != [] || s.ended ==> s.counted.Some?)
    && (s.stream.height.Some? ==> stop <= s.stream.height.value <= s.counted.value
                                  && s.stream.prevBlock.value == n.chain[s.stream.height.value])
    && (s.ended ==> Horizon(s, n) <= stop)
    && (if s.stream.height.Some?
        then s.blocks == seq(s.counted.value - s.stream.height.value + 1, i => s.counted.value - i)
        else s.blocks == [])
  }

  /** A transaction that must be reported has been, is about to be, or lies ahead of the scan. */
  ghost predicate Accounted(s: ScanState, n: Node, stop: nat, t: Tx) {
    || t in s.yielded
    || t in s.buffer
    || (t.id in s.pending && t.id in n.mempool && n.mempool[t.id] == t.body)
    || exists h :: stop <= h < Horizon(s, n) && h < |n.chain| && t in n.chain[h].txdata
  }

  /** The height the next block request is for. */
  function NextHeight(s: ScanState): nat
    requires s.counted.Some?
  {
    if s.stream.height.Some? then SatSub(s.stream.height.value, 1) else s.counted.value
  }

  /** A block request either fetches the block just below the horizon or ends the scan. */
  lemma {:induction false} PollBlock(s: ScanState, n: Node, stop: nat)
    requires Reachable(s, n, stop) && stop >= 1
    requires s.buffer == [] && s.pending == [] && !s.ended && s.counted.Some?
    ensures var next := NextHeight(s);
            && next < |n.chain|
            && Poll(s, n, stop) ==
               if next < stop then s.(ended := true)
               else s.(stream := StreamState(Some(next), Some(n.chain[next])), buffer := n.chain[next].txdata,
                       blocks := s.blocks + [next])
  {
    FindBlockByHash(n.chain, NextHeight(s));
  }

  lemma {:induction false} PollKeepsReachable(s: ScanState, n: Node, stop: nat)
    requires Reachable(s, n, stop) && stop >= 1
    ensures Reachable(Poll(s, n, stop), n, stop)
  {
    if s.buffer == [] && s.pending == [] && !s.ended && s.counted.Some? {
      PollBlock(s, n, stop);
    }
  }

  lemma {:induction false} PollKeepsAccounted(s: ScanState, n: Node, stop: nat, t: Tx)
    requires Reachable(s, n, stop) && Accounted(s, n, stop, t) && stop >= 1
    ensures Accounted(Poll(s, n, stop), n, stop, t)
  {
    if s.buffer != [] {
      assert s.buffer == [s.buffer[0]] + s.buffer[1..];
    } else if s.pending != [] {
      assert s.pending == [s.pending[0]] + s.pending[1..];
    } else if !s.ended && s.counted.Some? {
      PollBlock(s, n, stop);
    }
  }

  lemma {:induction false} NodeStepKeeps(s: ScanState, n: Node, n': Node, stop: nat)
    requires Reachable(s, n, stop) && NodeStep(n, n')
    ensures Reachable(s, n', stop) && |n.chain| <= |n'.chain|
    ensures stop <= |n.chain| ==> forall t :: Accounted(s, n, stop, t) ==> Accounted(s, n', stop, t)
  {
    assert forall h :: 0 <= h < |n.chain| ==> n'.chain[h] == n.chain[h];
    forall t | stop <= |n.chain| && Accounted(s, n, stop, t) ensures Accounted(s, n', stop, t) {
      if t !in s.yielded && t !in s.buffer {
        if t.id in s.pending && t.id in n.mempool && n.mempool[t.id] == t.body {
          assert Tx(t.id, n.mempool[t.id]) == t;
          if !(t.id in n'.mempool && n'.mempool[t.id] == t.body) {
            assert t in n'.chain[|n.chain|].txdata;
          }
        } else {
          var h :| stop <= h < Horizon(s, n) && h < |n.chain| && t in n.chain[h].txdata;
          assert t in n'.chain[h].txdata;
        }
      }
    }
  }

  /** Over any interleaving: the scan stays well formed, and what is accounted for stays so. */
  lemma {:induction false} RunKeeps(s: ScanState, n: Node, stop: nat, events: seq<Event>)
    requires Reachable(s, n, stop) && stop >= 1 && ValidRun(n, events)
    ensures var (s', n') := RunScan(s, n, stop, events);
            && Reachable(s', n', stop)
            && (stop <= |n.chain| ==> forall t :: Accounted(s, n, stop, t) ==> Accounted(s', n', stop, t))
    decreases |events|
  {
    if events != [] {
      match events[0]
      case PollEvent =>
        PollKeepsReachable(s, n, stop);
        forall t | Accounted(s, n, stop, t) ensures Accounted(Poll(s, n, stop), n, stop, t) {
          PollKeepsAccounted(s, n, stop, t);
        }
        RunKeeps(Poll(s, n, stop), n, stop, events[1..]);
      case NodeEvent(n') =>
        NodeStepKeeps(s, n, n', stop);
        RunKeeps(s, n', stop, events[1..]);
    }
  }

  /** In the mempool, or in a block at or above the stop height, when the scan starts. */
  ghost predicate VisibleAt(n: Node, stop: nat, t: Tx) {
    || (t.id in n.mempool && n.mempool[t.id] == t.body)
    || exists h :: stop <= h < |n.chain| && t in n.chain[h].txdata
  }

  ghost predicate Lists(listed: seq<Txid>, n: Node) {
    forall id :: id in n.mempool ==> id in listed
  }

  /** Main result: however the scan interleaves with block production, once it has finished it has
      reported every transaction that was visible when it started. */
  lemma {:induction false} ScanIsComplete(n: Node, stop: nat, listed: seq<Txid>, events: seq<Event>)
    requires Linked(n.chain) && 1 <= stop <= |n.chain| && Lists(listed, n) && ValidRun(n, events)
    requires Finished(RunScan(StartScan(listed), n, stop, events).0)
    ensures forall t :: VisibleAt(n, stop, t) ==> t in RunScan(StartScan(listed), n, stop, events).0.yielded
  {
    RunKeeps(StartScan(listed), n, stop, events);
    forall t | VisibleAt(n, stop, t) ensures t in RunScan(StartScan(listed), n, stop, events).0.yielded {
      assert Accounted(StartScan(listed), n, stop, t);
    }
  }

  // ------------------------------------------------------------------ what was yielded

  /** The transactions of the blocks at the given heights, in order. */
  function BlockTxs(chain: seq<Block>, heights: seq<nat>): seq<Tx>
    requires forall i :: 0 <= i < |heights| ==> heights[i] < |chain|
  {
    if heights == [] then []
    else BlockTxs(chain, heights[..|heights| - 1]) + chain[heights[|heights| - 1]].txdata
  }

  lemma {:induction false} BlockTxsSame(chain: seq<Block>, chain': seq<Block>, heights: seq<nat>)
    requires chain <= chain'
    requires forall i :: 0 <= i < |heights| ==> heights[i] < |chain|
    ensures BlockTxs(chain, heights) == BlockTxs(chain', heights)
  {
    if heights != [] {
      BlockTxsSame(chain, chain', heights[..|heights| - 1]);
    }
  }

  /** `txs` were fetched for some of `ids`, in that order. */
  predicate FetchedFrom(txs: seq<Tx>, ids: seq<Txid>)
    decreases |ids|
  {
    if txs == [] then true
    else if ids == [] then false
    else
      var n, k := |txs| - 1, |ids| - 1;
      FetchedFrom(txs, ids[..k]) || (txs[n].id == ids[k] && FetchedFrom(txs[..n], ids[..k]))
  }

  /** What has been yielded, or waits in the buffer, is a mempool part and then whole blocks. */
  ghost predicate Composed(s: ScanState, n: Node, listed: seq<Txid>, mem: seq<Tx>) {
    && (forall i :: 0 <= i < |s.blocks| ==> s.blocks[i] < |n.chain|)
    && |s.pending| <= |listed| && s.pending == listed[|listed| - |s.pending|..]
    && FetchedFrom(mem, listed[..|listed| - |s.pending|])
    && s.yielded + s.buffer == mem + BlockTxs(n.chain, s.blocks)
    && (s.counted.None? ==> s.blocks == [] && s.buffer == [])
  }

  /** A poll extends the mempool part by at most the transaction it fetches, and only before the tip
      has been read. */
  lemma {:induction false} PollKeepsComposed(s: ScanState, n: Node, stop: nat, listed: seq<Txid>, mem: seq<Tx>)
      returns (mem': seq<Tx>)
    requires Reachable(s, n, stop) && stop >= 1 && Composed(s, n, listed, mem)
    ensures Composed(Poll(s, n, stop), n, listed, mem')
  {
    mem' := mem;
    var s' := Poll(s, n, stop);
    if s.buffer != [] {
      assert s'.yielded + s'.buffer == s.yielded + s.buffer;
    } else if s.pending != [] {
      mem' := FetchKeepsComposed(s, n, stop, listed, mem);
    } else if !s.ended && s.counted.Some? {
      BlockKeepsComposed(s, n, stop, listed, mem);
    }
  }

  lemma {:induction false} FetchKeepsComposed(s: ScanState, n: Node, stop: nat, listed: seq<Txid>, mem: seq<Tx>)
      returns (mem': seq<Tx>)
    requires Reachable(s, n, stop) && Composed(s, n, listed, mem) && s.buffer == [] && s.pending != []
    ensures Composed(Poll(s, n, stop), n, listed, mem')
  {
    hide FindBlock, NextBlock, NextTarget;
    var s' := Poll(s, n, stop);
    assert s.yielded + s.buffer == s.yielded && mem + BlockTxs(n.chain, s.blocks) == mem;
    var k := |listed| - |s.pending|;
    assert listed[..k + 1][..k] == listed[..k] && listed[..k + 1][k] == s.pending[0];
    assert s'.pending == listed[k + 1..];
    if s.pending[0] in n.mempool {
      mem' := mem + [Tx(s.pending[0], n.mempool[s.pending[0]])];
      assert mem'[..|mem|] == mem;
    } else {
      mem' := mem;
    }
    assert FetchedFrom(mem', listed[..k + 1]);
    assert s'.yielded + s'.buffer == mem' + BlockTxs(n.chain, s'.blocks);
  }

  lemma {:induction false} BlockKeepsComposed(s: ScanState, n: Node, stop: nat, listed: seq<Txid>, mem: seq<Tx>)
    requires Reachable(s, n, stop) && stop >= 1 && Composed(s, n, listed, mem)
    requires s.buffer == [] && s.pending == [] && !s.ended && s.counted.Some?
    ensures Composed(Poll(s, n, stop), n, listed, mem)
  {
    hide Poll, Linked, FetchedFrom, BlockTxs;
    PollBlock(s, n, stop);
    assert s.yielded + s.buffer == s.yielded;
    if NextHeight(s) >= stop {
      AppendBlockTxs(n.chain, s.blocks, NextHeight(s), mem, s.yielded);
    }
  }

  lemma {:induction false} AppendBlockTxs(chain: seq<Block>, heights: seq<nat>, h: nat, mem: seq<Tx>, yielded: seq<Tx>)
    requires h < |chain| && forall i :: 0 <= i < |heights| ==> heights[i] < |chain|
    requires yielded == mem + BlockTxs(chain, heights)
    ensures forall i :: 0 <= i < |heights + [h]| ==> (heights + [h])[i] < |chain|
    ensures yielded + chain[h].txdata == mem + BlockTxs(chain, heights + [h])
  {
    assert (heights + [h])[..|heights|] == heights;
  }

  lemma {:induction false} RunKeepsComposed(s: ScanState, n: Node, stop: nat, events: seq<Event>, listed: seq<Txid>,
                                            mem: seq<Tx>) returns (mem': seq<Tx>)
    requires Reachable(s, n, stop) && stop >= 1 && ValidRun(n, events) && Composed(s, n, listed, mem)
    ensures var (s', n') := RunScan(s, n, stop, events); Composed(s', n', listed, mem')
    decreases |events|
  {
    mem' := mem;
    if events != [] {
      match events[0]
      case PollEvent =>
        PollKeepsReachable(s, n, stop);
        mem' := PollKeepsComposed(s, n, stop, listed, mem);
        mem' := RunKeepsComposed(Poll(s, n, stop), n, stop, events[1..], listed, mem');
      case NodeEvent(n') =>
        NodeStepKeeps(s, n, n', stop);
        NodeStepAppends(n, n');
        BlockTxsSame(n.chain, n'.chain, s.blocks);
        mem' := RunKeepsComposed(s, n', stop, events[1..], listed, mem);
    }
  }

  lemma {:induction false} NodeStepAppends(n: Node, n': Node)
    requires NodeStep(n, n')
    ensures n.chain <= n'.chain
  {
  }

  /** Each block from the tip the scan chose down to the stop height is yielded exactly once: what a
      finished scan has yielded is transactions fetched from the mempool, in the order listed, and
      then the transactions of exactly these blocks, in descending order. */
  lemma {:induction false} BlocksExactlyOnce(n: Node, stop: nat, listed: seq<Txid>, events: seq<Event>)
      returns (mem: seq<Tx>)
    requires Linked(n.chain) && stop >= 1 && ValidRun(n, events)
    requires Finished(RunScan(StartScan(listed), n, stop, events).0)
    ensures var (s, n') := RunScan(StartScan(listed), n, stop, events);
            && s.counted.Some? && s.counted.value < |n'.chain|
            && s.blocks == seq(Max(0, s.counted.value - stop + 1), i => s.counted.value - i)
            && FetchedFrom(mem, listed)
            && (forall i :: 0 <= i < |s.blocks| ==> s.blocks[i] < |n'.chain|)
            && s.yielded == mem + BlockTxs(n'.chain, s.blocks)
  {
    RunKeeps(StartScan(listed), n, stop, events);
    assert listed[..0] == [] && listed[0..] == listed && listed[..|listed|] == listed;
    mem := RunKeepsComposed(StartScan(listed), n, stop, events, listed, []);
    var s := RunScan(StartScan(listed), n, stop, events).0;
    assert s.yielded + s.buffer == s.yielded;
  }

  // ------------------------------------------------------------------ when the scan ends

  function Polls(events: seq<Event>): nat {
    if events == [] then 0 else (if events[0].PollEvent? then 1 else 0) + Polls(events[1..])
  }

  /** Polls that fetching and handing out the first `k` blocks takes. */
  function BlockWork(chain: seq<Block>, k: nat): nat
    requires k <= |chain|
  {
    if k == 0 then 0 else BlockWork(chain, k - 1) + 1 + |chain[k - 1].txdata|
  }

  lemma {:induction false} BlockWorkMonotone(chain: seq<Block>, j: nat, k: nat)
    requires j <= k <= |chain|
    ensures BlockWork(chain, j) <= BlockWork(chain, k)
    decreases k
  {
    if j < k {
      BlockWorkMonotone(chain, j, k - 1);
    }
  }

  /** How many polls are left at most, given the blocks that will ever be there. */
  function PollsLeft(s: ScanState, chain: seq<Block>): nat {
    |s.pending| + |s.buffer| +
    (if s.ended then 0
     else if s.counted.None? then BlockWork(chain, |chain|) + 2
     else
       var top := if s.stream.height.Some? then s.stream.height.value else s.counted.value + 1;
       1 + BlockWork(chain, Min(|chain|, top)))
  }

  /** Every poll of an unfinished scan does some of that work, whatever the node does in between. */
  lemma {:induction false} PollProgresses(s: ScanState, n: Node, stop: nat, chain: seq<Block>)
    requires Reachable(s, n, stop) && stop >= 1 && !Finished(s) && n.chain <= chain
    ensures PollsLeft(Poll(s, n, stop), chain) < PollsLeft(s, chain)
  {
    if s.buffer == [] && s.pending == [] && !s.ended {
      if s.counted.Some? {
        PollBlock(s, n, stop);
        assert n.chain[NextHeight(s)] == chain[NextHeight(s)];
      } else {
        BlockWorkMonotone(chain, |n.chain|, |chain|);
      }
    }
  }

  lemma {:induction false} ChainOnlyGrows(n: Node, stop: nat, s: ScanState, events: seq<Event>)
    requires ValidRun(n, events)
    ensures n.chain <= RunScan(s, n, stop, events).1.chain
    decreases |events|
  {
    if events != [] {
      match events[0]
      case PollEvent => ChainOnlyGrows(n, stop, if n.chain == [] then s else Poll(s, n, stop), events[1..]);
      case NodeEvent(n') =>
        NodeStepAppends(n, n');
        ChainOnlyGrows(n', stop, s, events[1..]);
    }
  }

  lemma {:induction false} RunProgresses(s: ScanState, n: Node, stop: nat, events: seq<Event>)
    requires Reachable(s, n, stop) && stop >= 1 && ValidRun(n, events)
    ensures var (s', n') := RunScan(s, n, stop, events);
            Finished(s') || PollsLeft(s', n'.chain) + Polls(events) <= PollsLeft(s, n'.chain)
    decreases |events|
  {
    if events != [] {
      match events[0]
      case PollEvent =>
        var s1 := Poll(s, n, stop);
        PollKeepsReachable(s, n, stop);
        ChainOnlyGrows(n, stop, s1, events[1..]);
        RunProgresses(s1, n, stop, events[1..]);
        if Finished(s) {
          StaysFinished(s, n, stop, events);
        } else {
          PollProgresses(s, n, stop, RunScan(s1, n, stop, events[1..]).1.chain);
        }
      case NodeEvent(n') =>
        NodeStepKeeps(s, n, n', stop);
        RunProgresses(s, n', stop, events[1..]);
    }
  }

  lemma {:induction false} StaysFinished(s: ScanState, n: Node, stop: nat, events: seq<Event>)
    requires Finished(s)
    ensures RunScan(s, n, stop, events).0 == s
    decreases |events|
  {
    if events != [] {
      match events[0]
      case PollEvent => StaysFinished(s, n, stop, events[1..]);
      case NodeEvent(n') => StaysFinished(s, n', stop, events[1..]);
    }
  }

  /** Enough polls for a scan that starts now, against the chain as it is in the end. */
  function EnoughPolls(listed: seq<Txid>, chain: seq<Block>): nat {
    |listed| + BlockWork(chain, |chain|) + 2
  }

  /** With a stop height of at least 1 every run with enough polls finishes, however much the node
      does in between. */
  lemma {:induction false} ScanEnds(n: Node, stop: nat, listed: seq<Txid>, events: seq<Event>)
    requires Linked(n.chain) && stop >= 1 && ValidRun(n, events)
    requires Polls(events) >= EnoughPolls(listed, LastNode(n, events).chain)
    ensures Finished(RunScan(StartScan(listed), n, stop, events).0)
  {
    RunEndsAtLastNode(StartScan(listed), n, stop, events);
    RunProgresses(StartScan(listed), n, stop, events);
  }

  /** With a stop height of 0 no run ever ends, whatever the node does and however often it is
      polled. */
  lemma {:induction false} ZeroStopNeverEnds(s: ScanState, n: Node, events: seq<Event>)
    requires !s.ended
    ensures !RunScan(s, n, 0, events).0.ended
    decreases |events|
  {
    if events != [] {
      match events[0]
      case PollEvent =>
        if n.chain != [] {
          PollWithZeroStop(s, n);
        }
        ZeroStopNeverEnds(if n.chain == [] then s else Poll(s, n, 0), n, events[1..]);
      case NodeEvent(n') => ZeroStopNeverEnds(s, n', events[1..]);
    }
  }

  lemma {:induction false} PollWithZeroStop(s: ScanState, n: Node)
    requires !s.ended && n.chain != []
    ensures !Poll(s, n, 0).ended
  {
    forall hash ensures !FindBlock(n.chain, hash).Pruned? {
      FindBlockNotPruned(n.chain, hash);
    }
  }

  lemma {:induction false} FindBlockNotPruned(chain: seq<Block>, hash: Hash)
    ensures !FindBlock(chain, hash).Pruned?
  {
    if chain != [] {
      FindBlockNotPruned(chain[..|chain| - 1], hash);
    }
  }

  // ------------------------------------------------------------------ stop heights above the tip

  /** If this run finishes, it has reported everything visible at its start. */
  ghost predicate CompleteOn(n: Node, stop: nat, listed: seq<Txid>, events: seq<Event>) {
    var s := RunScan(StartScan(listed), n, stop, events).0;
    Finished(s) ==> forall t :: VisibleAt(n, stop, t) ==> t in s.yielded
  }

  ghost predicate AlwaysComplete(n: Node, stop: nat) {
    forall listed, events :: Lists(listed, n) && ValidRun(n, events) ==> CompleteOn(n, stop, listed, events)
  }

  function RepeatPoll(k: nat): (events: seq<Event>)
    ensures Polls(events) == k == |events|
    ensures forall i :: 0 <= i < k ==> events[i] == PollEvent
  {
    if k == 0 then [] else [PollEvent] + RepeatPoll(k - 1)
  }

  lemma {:induction false} PollsAreValid(n: Node, events: seq<Event>)
    requires forall i :: 0 <= i < |events| ==> events[i] == PollEvent
    ensures ValidRun(n, events)
    decreases |events|
  {
    if events != [] {
      PollsAreValid(n, events[1..]);
    }
  }

  /** With an empty mempool and no block to reach, the scan reports nothing. */
  lemma {:induction false} PollsReportNothing(s: ScanState, n: Node, stop: nat, events: seq<Event>)
    requires n.chain != [] && |n.chain| <= stop && n.mempool == map[] && s.yielded == []
    requires s.buffer == [] && s.stream == StreamState(None, None)
    requires s.counted == None || s.counted == Some(|n.chain| - 1)
    requires forall i :: 0 <= i < |events| ==> events[i] == PollEvent
    ensures RunScan(s, n, stop, events).0.yielded == []
    decreases |events|
  {
    if events != [] {
      PollsReportNothing(Poll(s, n, stop), n, stop, events[1..]);
    }
  }

  lemma {:induction false} UnusedHash(chain: seq<Block>) returns (hash: Hash)
    ensures forall i :: 0 <= i < |chain| ==> chain[i].hash < hash
  {
    hash := 0;
    if chain != [] {
      hash := UnusedHash(chain[..|chain| - 1]);
      hash := Max(hash, chain[|chain| - 1].hash + 1);
    }
  }

  lemma {:induction false} ListOf(ids: set<Txid>) returns (listed: seq<Txid>)
    ensures forall id :: id in ids ==> id in listed
    decreases |ids|
  {
    if ids == {} {
      listed := [];
    } else {
      var id :| id in ids;
      listed := ListOf(ids - {id});
      listed := [id] + listed;
    }
  }

  /** A run that reports nothing at all: the whole mempool is mined while the scan waits, below the
      stop height. */
  lemma {:induction false} HighStopHeightMisses(n: Node, stop: nat) returns (listed: seq<Txid>, events: seq<Event>)
    requires Linked(n.chain) && stop > |n.chain|
    ensures Lists(listed, n) && ValidRun(n, events)
    ensures Polls(events) >= EnoughPolls(listed, LastNode(n, events).chain)
    ensures var s := RunScan(StartScan(listed), n, stop, events).0; Finished(s) && s.yielded == []
  {
    listed := ListOf(n.mempool.Keys);
    var mined := MinedFrom(n.mempool, listed);
    var hash := UnusedHash(n.chain);
    var b := Block(hash, n.chain[|n.chain| - 1].hash, mined);
    var n' := Node(n.chain + [b], map[]);
    assert n'.chain[..|n.chain|] == n.chain && n'.chain[|n.chain|] == b;
    assert Linked(n'.chain);
    assert NodeStep(n, n');
    var polls := RepeatPoll(EnoughPolls(listed, n'.chain));
    events := [NodeEvent(n')] + polls;
    assert events[1..] == polls;
    PollsAreValid(n', polls);
    PollsReportNothing(StartScan(listed), n', stop, polls);
    RunEndsAtLastNode(StartScan(listed), n', stop, polls);
    PollsLeaveNode(n', polls);
    ScanEnds(n', stop, listed, polls);
  }

  lemma {:induction false} PollsLeaveNode(n: Node, events: seq<Event>)
    requires forall i :: 0 <= i < |events| ==> events[i] == PollEvent
    ensures LastNode(n, events) == n
    decreases |events|
  {
    if events != [] {
      PollsLeaveNode(n, events[1..]);
    }
  }

  lemma {:induction false} MinedFrom(mempool: map<Txid, Transaction>, ids: seq<Txid>) returns (txs: seq<Tx>)
    ensures forall id :: id in ids && id in mempool ==> Tx(id, mempool[id]) in txs
  {
    txs := [];
    if ids != [] {
      var id := ids[|ids| - 1];
      txs := MinedFrom(mempool, ids[..|ids| - 1]);
      if id in mempool {
        txs := txs + [Tx(id, mempool[id])];
      }
      assert ids == ids[..|ids| - 1] + [id];
    }
  }

  /** Exactly which stop heights are safe: at most one above the tip, or any if the mempool is
      empty. */
  lemma {:induction false} AlwaysCompleteIff(n: Node, stop: nat)
    requires Linked(n.chain) && stop >= 1
    ensures AlwaysComplete(n, stop) <==> stop <= |n.chain| || n.mempool == map[]
  {
    if stop <= |n.chain| {
      forall listed, events | Lists(listed, n) && ValidRun(n, events) ensures CompleteOn(n, stop, listed, events) {
        if Finished(RunScan(StartScan(listed), n, stop, events).0) {
          ScanIsComplete(n, stop, listed, events);
        }
      }
    } else if n.mempool != map[] {
      var id :| id in n.mempool;
      var listed, events := HighStopHeightMisses(n, stop);
      assert VisibleAt(n, stop, Tx(id, n.mempool[id]));
      assert !CompleteOn(n, stop, listed, events);
    }
  }
}
