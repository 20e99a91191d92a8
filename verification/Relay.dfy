/**
 The header relay: find where the relay's view and the backing chain part, walk forward over
 headers the relay already stores on some fork, and submit the next batch.

 The backing chain is hash-linked and indexed by height. The relay stores a tree of headers that
 grows from the header it was initialized with, and follows one branch of it as its main chain.
 */
module Relay {
  import opened Prelude

  type Hash = nat

  // What `chains_hashes` returns for a height without a block.
  const ZERO_HASH: Hash := 0

  datatype Header = Header(hash: Hash, prev: Hash)

  datatype Stored = Stored(height: nat, prev: Hash)

  datatype RelayState = RelayState(stored: map<Hash, Stored>, main: map<nat, Hash>, best: nat,
                                   root: Hash, rootHeight: nat)

  ghost predicate Linked(b: seq<Header>) {
    && (forall h :: 0 < h < |b| ==> b[h].prev == b[h - 1].hash)
    && (forall g, h :: 0 <= g < h < |b| ==> b[g].hash != b[h].hash)
    && (forall h :: 0 <= h < |b| ==> b[h].hash != ZERO_HASH)
  }

  /** The relay's tree: every header but the first hangs below a stored parent, one height up. */
  ghost predicate Rooted(r: RelayState) {
    && r.root in r.stored && r.stored[r.root].height == r.rootHeight
    && (forall x :: x in r.stored && x != r.root ==>
          r.stored[x].prev in r.stored && r.stored[x].height == r.stored[r.stored[x].prev].height + 1)
    && (forall x :: x in r.stored ==> r.stored[x].height >= r.rootHeight && x != ZERO_HASH)
  }

  /** The main chain is a branch of the tree, from the first header to the best height. */
  predicate MainIsBranch(r: RelayState) {
    && r.rootHeight <= r.best
    && (forall h :: h in r.main ==> r.rootHeight <= h <= r.best)
    && (forall h :: r.rootHeight <= h <= r.best ==> h in r.main)
    && r.main[r.rootHeight] == r.root
    && (forall h :: r.rootHeight <= h <= r.best ==> r.main[h] in r.stored && r.stored[r.main[h]].height == h)
    && (forall h :: r.rootHeight < h <= r.best ==> r.stored[r.main[h]].prev == r.main[h - 1])
  }

  /** A hash commits to its header: stored copies of backing headers have the same parent. */
  ghost predicate Agrees(r: RelayState, b: seq<Header>) {
    forall h :: 0 <= h < |b| && b[h].hash in r.stored ==> r.stored[b[h].hash].prev == b[h].prev || b[h].hash == r.root
  }

  ghost predicate Valid(r: RelayState, b: seq<Header>) {
    Rooted(r) && MainIsBranch(r) && Agrees(r, b) && Linked(b)
  }

  /** The first header of the relay is on the backing chain. */
  predicate RootOnBacking(r: RelayState, b: seq<Header>) {
    r.rootHeight < |b| && b[r.rootHeight].hash == r.root
  }

  // ------------------------------------------------------------------ queries

  function MainHash(r: RelayState, h: nat): Hash {
    if h in r.main then r.main[h] else ZERO_HASH
  }

  /** The real query reads the stored height, so a header stored at height 0 counts as absent. */
  predicate IsBlockStored(r: RelayState, x: Hash) {
    x in r.stored && r.stored[x].height > 0
  }

  /** Least height from the relay's first header on whose backing header is not stored. */
  function FirstUnstored(r: RelayState, b: seq<Header>, from: nat): (s: nat)
    requires from <= |b|
    ensures from <= s <= |b|
    ensures forall h :: from <= h < s ==> b[h].hash in r.stored
    ensures s < |b| ==> b[s].hash !in r.stored
    decreases |b| - from
  {
    if from < |b| && b[from].hash in r.stored then FirstUnstored(r, b, from + 1) else from
  }

  // ------------------------------------------------------------------ the two passes

  datatype StartHeight = Start(height: nat) | NotInitialized | BlockHashNotFound

  /** Nothing above the first gap is stored: storing is closed under parents. */
  lemma {:induction false} NothingAboveGap(r: RelayState, b: seq<Header>, s: nat, h: nat)
    requires Valid(r, b) && RootOnBacking(r, b) && r.rootHeight < s <= h < |b|
    requires b[s].hash !in r.stored
    ensures b[h].hash !in r.stored
  {
    hide MainIsBranch;
    if h > s {
      NothingAboveGap(r, b, s, h - 1);
      assert b[h].prev == b[h - 1].hash && b[h].hash != r.root;
    }
  }

  /** Below a common block both chains are the same, down to the relay's first header. */
  lemma {:induction false} CommonBelow(r: RelayState, b: seq<Header>, a: nat)
    requires Valid(r, b) && a < |b| && MainHash(r, a) == b[a].hash
    ensures r.rootHeight <= a <= r.best && RootOnBacking(r, b)
  {
    assert a in r.main;
    if a > r.rootHeight {
      assert r.main[a] != r.root;
      assert b[a].prev == b[a - 1].hash;
      CommonBelow(r, b, a - 1);
    }
  }

  /** The relay was started at height 0 and its main chain shares nothing else with the backing
      chain. Its first header then looks absent. */
  predicate OnlyGenesisShared(r: RelayState, b: seq<Header>)
    requires r.best < |b|
  {
    r.rootHeight == 0 && (r.best == 0 || MainHash(r, 1) != b[1].hash)
  }

  /** Where the search starts submitting. */
  function StartOf(r: RelayState, b: seq<Header>): nat
    requires r.best < |b| && r.rootHeight <= |b|
  {
    if OnlyGenesisShared(r, b) then 0 else FirstUnstored(r, b, r.rootHeight)
  }

  lemma {:induction false} CommonFromRoot(r: RelayState, b: seq<Header>, g: nat, a: nat)
    requires Valid(r, b) && g <= a < |b| && MainHash(r, a) == b[a].hash && r.rootHeight <= g
    ensures MainHash(r, g) == b[g].hash
    decreases a - g
  {
    CommonBelow(r, b, a);
    if g < a {
      assert r.main[a] != r.root;
      assert b[a].prev == b[a - 1].hash;
      CommonFromRoot(r, b, g, a - 1);
    }
  }

  lemma {:induction false} GapAboveCommon(r: RelayState, b: seq<Header>, a: nat)
    requires Valid(r, b) && RootOnBacking(r, b) && a < |b| && MainHash(r, a) == b[a].hash
    ensures FirstUnstored(r, b, r.rootHeight) > a
  {
    CommonBelow(r, b, a);
    var gap := FirstUnstored(r, b, r.rootHeight);
    assert r.main[a] in r.stored;
    if gap <= a {
      NothingAboveGap(r, b, gap, a);
    }
  }

  lemma {:induction false} RootIsCommon(r: RelayState, b: seq<Header>)
    requires Valid(r, b)
    ensures r.rootHeight <= r.best
    ensures RootOnBacking(r, b) ==> MainHash(r, r.rootHeight) == b[r.rootHeight].hash && r.root in r.stored
  {
  }

  /** `compute_start_height`: it succeeds exactly when the backing chain reaches the relay's best
      height and shares a block with it. The answer is then the first backing header the relay
      does not store, whichever fork its main chain is on, except that a relay sharing only a
      header at height 0 is told to start over at 0. */
  method ComputeStartHeight(r: RelayState, b: seq<Header>) returns (res: StartHeight)
    requires Valid(r, b) && |b| <= U32_MAX
    ensures res.Start? <==> r.best < |b| && RootOnBacking(r, b)
    ensures res.Start? ==> FirstUnstored(r, b, r.rootHeight) > r.rootHeight
    ensures res.Start? ==> res.height == StartOf(r, b)
    ensures res == BlockHashNotFound <==> r.best >= |b|
  {
    hide Rooted, MainIsBranch, Agrees, Linked, FirstUnstored;
    RootIsCommon(r, b);
    var startHeight := r.best;
    var relayHash := MainHash(r, startHeight);
    if startHeight >= |b| {
      return BlockHashNotFound;
    }
    var btcHash := b[startHeight].hash;

    // backwards pass
    while relayHash != btcHash
      invariant startHeight <= r.best < |b|
      invariant relayHash == MainHash(r, startHeight) && btcHash == b[startHeight].hash
      invariant RootOnBacking(r, b) ==> r.rootHeight <= startHeight
      invariant startHeight < r.best ==> MainHash(r, startHeight + 1) != b[startHeight + 1].hash
      decreases startHeight
    {
      if startHeight == 0 {
        return NotInitialized;
      }
      startHeight := startHeight - 1;
      relayHash := MainHash(r, startHeight);
      btcHash := b[startHeight].hash;
    }
    CommonBelow(r, b, startHeight);
    if startHeight > 0 && r.rootHeight == 0 {
      CommonFromRoot(r, b, 1, startHeight);
    }
    ghost var gap := FirstUnstored(r, b, r.rootHeight);
    GapAboveCommon(r, b, startHeight);

    // forward pass (possible forks)
    while true
      invariant r.rootHeight <= startHeight <= |b|
      invariant startHeight <= gap
      invariant startHeight == 0 <==> OnlyGenesisShared(r, b)
      decreases |b| - startHeight
    {
      if startHeight < gap {
        HeightOnBacking(r, b, startHeight);
      }
      if startHeight < |b| && IsBlockStored(r, b[startHeight].hash) {
        startHeight := startHeight + 1;
      } else {
        break;
      }
    }
    return Start(startHeight);
  }

  /** `collect_headers`: consecutive backing headers, or nothing if one is missing. */
  method CollectHeaders(b: seq<Header>, height: nat, batch: nat) returns (headers: Option<seq<Header>>)
    ensures headers == if batch == 0 then Some([])
                       else if height + batch <= |b| then Some(b[height..height + batch]) else None
  {
    var collected: seq<Header> := [];
    for h := height to height + batch
      invariant h <= |b| || h == height
      invariant h <= |b| ==> collected == b[height..h]
      invariant h == height ==> collected == []
    {
      if h >= |b| {
        return None;
      }
      collected := collected + [b[h]];
    }
    return Some(collected);
  }

  // ------------------------------------------------------------------ submitting

  datatype Config = Config(maxBatchSize: nat, btcConfirmations: nat)

  /** `get_num_confirmed_blocks`; the block count of a chain of `n` headers is `n - 1`. */
  function NumConfirmed(b: seq<Header>, cfg: Config): nat
    requires b != []
  {
    SatSub(|b| - 1, cfg.btcConfirmations)
  }

  function BatchSize(current: nat, maxHeight: nat, cfg: Config): nat {
    if current + cfg.maxBatchSize > maxHeight then SatSub(maxHeight + 1, current) else cfg.maxBatchSize
  }

  /** What storing a run of headers makes of the tree. */
  function Store(stored: map<Hash, Stored>, headers: seq<Header>, height: nat): map<Hash, Stored>
    decreases |headers|
  {
    if headers == [] then stored
    else Store(stored[headers[0].hash := Stored(height, headers[0].prev)], headers[1..], height + 1)
  }

  /** A submission the relay accepts in full: a run of backing headers, not empty, that continues
      the stored tree, repeats nothing, and respects batch size and confirmations. */
  ghost predicate GoodBatch(r: RelayState, b: seq<Header>, cfg: Config, from: nat, n: nat) {
    && 0 < n <= cfg.maxBatchSize && 0 < from && from + n <= |b|
    && b[from - 1].hash in r.stored
    && (forall h :: from <= h < from + n ==> b[h].hash !in r.stored)
    && from + n - 1 + cfg.btcConfirmations <= |b| - 1
  }

  /** The relay after a submission; it may reorganise onto any branch it stores. */
  ghost predicate AfterBatch(r: RelayState, b: seq<Header>, from: nat, n: nat, r': RelayState)
    requires from + n <= |b|
  {
    && r'.stored == Store(r.stored, b[from..from + n], from)
    && r'.root == r.root && r'.rootHeight == r.rootHeight
    && Valid(r', b)
  }

  lemma {:induction false} StoreAdds(stored: map<Hash, Stored>, b: seq<Header>, from: nat, n: nat)
    requires Linked(b) && from + n <= |b|
    ensures var s' := Store(stored, b[from..from + n], from);
            && (forall h :: from <= h < from + n ==> b[h].hash in s' && s'[b[h].hash] == Stored(h, b[h].prev))
            && (forall x :: x in stored ==> x in s')
            && (forall x :: x in s' ==>
                  (exists h :: from <= h < from + n && b[h].hash == x) || (x in stored && s'[x] == stored[x]))
    decreases n
  {
    if n > 0 {
      var hs := b[from..from + n];
      assert hs[1..] == b[from + 1..from + n];
      StoreAdds(stored[b[from].hash := Stored(from, b[from].prev)], b, from + 1, n - 1);
    }
  }

  lemma {:induction false} HeightOnBacking(r: RelayState, b: seq<Header>, h: nat)
    requires Valid(r, b) && RootOnBacking(r, b) && r.rootHeight <= h < |b| && b[h].hash in r.stored
    ensures r.stored[b[h].hash].height == h
  {
    if h > r.rootHeight {
      HeightOnBacking(r, b, h - 1);
    }
  }

  /** What a good batch does to the stored headers: the old ones stay, the new ones join. */
  ghost predicate Extends(r: RelayState, r': RelayState, b: seq<Header>, from: nat, n: nat)
    requires from + n <= |b|
  {
    && r' == r.(stored := r'.stored)
    && (forall x :: x in r.stored ==> x in r'.stored && r'.stored[x] == r.stored[x])
    && (forall h :: from <= h < from + n ==> b[h].hash in r'.stored && r'.stored[b[h].hash] == Stored(h, b[h].prev))
    && (forall x :: x in r'.stored && x !in r.stored ==> exists h :: from <= h < from + n && b[h].hash == x)
  }

  lemma {:induction false} ExtendsRooted(r: RelayState, r': RelayState, b: seq<Header>, from: nat, n: nat)
    requires Rooted(r) && Linked(b) && r.rootHeight < from && from + n <= |b| && Extends(r, r', b, from, n)
    requires b[from - 1].hash in r.stored && r.stored[b[from - 1].hash].height == from - 1
    ensures Rooted(r')
  {
    forall x | x in r'.stored && x != r'.root
      ensures r'.stored[x].prev in r'.stored && r'.stored[x].height == r'.stored[r'.stored[x].prev].height + 1
    {
      if x !in r.stored {
        var h :| from <= h < from + n && b[h].hash == x;
        assert b[h].prev == b[h - 1].hash;
      }
    }
  }

  lemma {:induction false} ExtendsBranch(r: RelayState, r': RelayState, b: seq<Header>, from: nat, n: nat)
    requires MainIsBranch(r) && from + n <= |b| && Extends(r, r', b, from, n)
    ensures MainIsBranch(r')
  {
  }

  lemma {:induction false} ExtendsAgrees(r: RelayState, r': RelayState, b: seq<Header>, from: nat, n: nat)
    requires Agrees(r, b) && Linked(b) && from + n <= |b| && Extends(r, r', b, from, n)
    ensures Agrees(r', b)
  {
    forall h | 0 <= h < |b| && b[h].hash in r'.stored
      ensures r'.stored[b[h].hash].prev == b[h].prev || b[h].hash == r'.root
    {
      if b[h].hash !in r.stored {
        var g :| from <= g < from + n && b[g].hash == b[h].hash;
        assert g == h;
      }
    }
  }

  /** The relay can always keep its main chain: the tree stays well formed after a good batch. */
  lemma {:induction false} StoringKeepsValid(r: RelayState, b: seq<Header>, cfg: Config, from: nat, n: nat)
    requires Valid(r, b) && RootOnBacking(r, b) && r.rootHeight < from && b != []
    requires GoodBatch(r, b, cfg, from, n)
    ensures AfterBatch(r, b, from, n, r.(stored := Store(r.stored, b[from..from + n], from)))
  {
    hide Rooted, MainIsBranch, Agrees, Linked, Store;
    var r' := r.(stored := Store(r.stored, b[from..from + n], from));
    StoreAdds(r.stored, b, from, n);
    HeightOnBacking(r, b, from - 1);
    assert Extends(r, r', b, from, n);
    ExtendsRooted(r, r', b, from, n);
    ExtendsBranch(r, r', b, from, n);
    ExtendsAgrees(r, r', b, from, n);
  }

  lemma {:induction false} ReorgKeepsValid(r: RelayState, b: seq<Header>, r': RelayState)
    requires Valid(r, b) && MainIsBranch(r') && r' == r.(main := r'.main, best := r'.best)
    ensures Valid(r', b)
  {
    hide MainIsBranch, Linked;
  }

  /** The relay as the runner sees it. */
  class Issuing {
    var state: RelayState

    constructor (state: RelayState)
      ensures this.state == state
    {
      this.state := state;
    }

    /** Store a batch; `reorg` is the main chain the relay prefers afterwards, if it is a branch. */
    method SubmitHeaders(b: seq<Header>, from: nat, headers: seq<Header>, reorg: RelayState, ghost cfg: Config)
      requires b != [] && Valid(state, b) && RootOnBacking(state, b) && state.rootHeight < from
      requires GoodBatch(state, b, cfg, from, |headers|) && headers == b[from..from + |headers|]
      modifies this
      ensures AfterBatch(old(state), b, from, |headers|, state)
    {
      hide Rooted, MainIsBranch, Agrees, Linked, Valid, GoodBatch, Store;
      StoringKeepsValid(state, b, cfg, from, |headers|);
      state := state.(stored := Store(state.stored, headers, from));
      var chosen := state.(main := reorg.main, best := reorg.best);
      if MainIsBranch(chosen) {
        ReorgKeepsValid(state, b, chosen);
        state := chosen;
      }
    }
  }

  /** The initialization branch of `submit_next`; `None` is the panic on a missing header. */
  method Initialize(b: seq<Header>, cfg: Config, startHeight: Option<nat>) returns (r: Option<RelayState>)
    requires b != [] && Linked(b)
    ensures var h := if startHeight.Some? then startHeight.value else Max(0, |b| - 1 - cfg.btcConfirmations);
            && (r.None? <==> h >= |b|)
            && (r.Some? ==> Valid(r.value, b) && RootOnBacking(r.value, b) && r.value.rootHeight == h == r.value.best)
  {
    var h := if startHeight.Some? then startHeight.value else NumConfirmed(b, cfg);
    if h >= |b| {
      return None;
    }
    var header := b[h];
    return Some(RelayState(map[header.hash := Stored(h, header.prev)], map[h := header.hash], h, header.hash, h));
  }

  datatype Submission =
    | Submitted(from: nat, headers: seq<Header>)
    | Refused(headers: seq<Header>)
    | Waited
    | StartFailed

  /** What one call of `submit_next` does to an initialized relay. */
  ghost predicate SubmitStep(r: RelayState, b: seq<Header>, cfg: Config, sub: Submission, r': RelayState)
    requires b != []
  {
    match sub
    case StartFailed => r' == r && !(r.best < |b| && RootOnBacking(r, b))
    case Waited =>
      && r' == r && RootOnBacking(r, b) && r.best < |b|
      && (cfg.maxBatchSize == 0 || (StartOf(r, b) > 0 && StartOf(r, b) + cfg.btcConfirmations > |b| - 1))
    case Refused(headers) =>
      && r' == r && RootOnBacking(r, b) && r.best < |b| && OnlyGenesisShared(r, b)
      && 0 < |headers| == Min(cfg.maxBatchSize, Max(1, |b| - cfg.btcConfirmations)) <= |b| && headers == b[..|headers|]
    case Submitted(from, headers) =>
      && RootOnBacking(r, b) && r.best < |b| && !OnlyGenesisShared(r, b) && from == StartOf(r, b)
      && |headers| == Min(cfg.maxBatchSize, |b| - cfg.btcConfirmations - from)
      && GoodBatch(r, b, cfg, from, |headers|) && headers == b[from..from + |headers|]
      && AfterBatch(r, b, from, |headers|, r')
  }

  /** `submit_next` after initialization. A relay that only shares a header at height 0 is sent that
      header again, which it refuses, being already stored. */
  method SubmitNext(issuing: Issuing, b: seq<Header>, cfg: Config, reorg: RelayState) returns (sub: Submission)
    requires b != [] && |b| <= U32_MAX && Valid(issuing.state, b)
    modifies issuing
    ensures SubmitStep(old(issuing.state), b, cfg, sub, issuing.state)
    ensures Valid(issuing.state, b) && issuing.state.rootHeight == old(issuing.state.rootHeight)
  {
    hide Rooted, MainIsBranch, Agrees, Linked, Valid, GoodBatch, Store, FirstUnstored;
    var maxHeight := NumConfirmed(b, cfg);
    var start := ComputeStartHeight(issuing.state, b);
    if !start.Start? {
      return StartFailed;
    }
    var current := start.height;
    var batchSize := BatchSize(current, maxHeight, cfg);
    if batchSize == 0 {
      return Waited;
    }
    if current == 0 {
      var headers := CollectHeaders(b, 0, batchSize);
      return Refused(headers.value);
    }
    NextBatchIsGood(issuing.state, b, cfg);
    if batchSize == 1 {
      var header := b[current];
      assert b[current..current + 1] == [header];
      sub := Submitted(current, [header]);
      issuing.SubmitHeaders(b, current, [header], reorg, cfg);
    } else {
      var headers := CollectHeaders(b, current, batchSize);
      sub := Submitted(current, headers.value);
      issuing.SubmitHeaders(b, current, headers.value, reorg, cfg);
    }
  }

  lemma {:induction false} NextBatchIsGood(r: RelayState, b: seq<Header>, cfg: Config)
    requires b != [] && Valid(r, b) && RootOnBacking(r, b) && r.best < |b|
    requires StartOf(r, b) > 0 && BatchSize(StartOf(r, b), NumConfirmed(b, cfg), cfg) > 0
    ensures var from, n := StartOf(r, b), BatchSize(StartOf(r, b), NumConfirmed(b, cfg), cfg);
            r.rootHeight < from && from + n <= |b| && GoodBatch(r, b, cfg, from, n)
  {
    hide MainIsBranch, Agrees;
    var from, n := StartOf(r, b), BatchSize(StartOf(r, b), NumConfirmed(b, cfg), cfg);
    assert b[r.rootHeight].hash in r.stored;
    forall h | from <= h < from + n ensures b[h].hash !in r.stored {
      NothingAboveGap(r, b, from, h);
    }
  }

  // ------------------------------------------------------------------ progress over whole runs

  /** How many confirmed backing headers above the relay's first header are not stored. */
  function Missing(r: RelayState, b: seq<Header>, cfg: Config): nat
    requires b != [] && r.rootHeight <= |b|
  {
    SatSub(SatSub(|b|, cfg.btcConfirmations), FirstUnstored(r, b, r.rootHeight))
  }

  /** Another relayer at work: the tree grows and the main chain may move. */
  ghost predicate OthersStep(r: RelayState, b: seq<Header>, r': RelayState) {
    && Valid(r', b) && r'.root == r.root && r'.rootHeight == r.rootHeight
    && (forall x :: x in r.stored ==> x in r'.stored)
  }

  datatype Step = OurCall(sub: Submission) | Others

  /** A run of relay states; the backing chain is stable and at least as high as the relay. */
  ghost predicate Run(states: seq<RelayState>, steps: seq<Step>, b: seq<Header>, cfg: Config)
    requires b != []
  {
    && |states| == |steps| + 1
    && (forall i :: 0 <= i < |states| ==> Usable(states[i], b))
    && forall i :: 0 <= i < |steps| ==> RunStep(states[i], b, cfg, steps[i], states[i + 1])
  }

  ghost predicate Usable(r: RelayState, b: seq<Header>) {
    Valid(r, b) && r.best < |b|
  }

  ghost predicate RunStep(r: RelayState, b: seq<Header>, cfg: Config, step: Step, r': RelayState)
    requires b != []
  {
    match step
    case OurCall(sub) => SubmitStep(r, b, cfg, sub, r')
    case Others => OthersStep(r, b, r')
  }

  /** Our calls are made while the relay shares more than a header at height 0; a relay started
      above height 0 always does. */
  ghost predicate PastGenesis(states: seq<RelayState>, steps: seq<Step>, b: seq<Header>)
    requires |states| == |steps| + 1
  {
    forall i :: 0 <= i < |steps| && steps[i].OurCall? ==> states[i].best < |b| && !OnlyGenesisShared(states[i], b)
  }

  lemma {:induction false} AboveZeroIsPastGenesis(states: seq<RelayState>, steps: seq<Step>, b: seq<Header>,
                                                  cfg: Config)
    requires b != [] && Run(states, steps, b, cfg)
    requires forall i :: 0 <= i < |states| ==> states[i].rootHeight >= 1
    ensures PastGenesis(states, steps, b)
  {
  }

  function Calls(steps: seq<Step>): nat {
    if steps == [] then 0 else Calls(steps[..|steps| - 1]) + (if steps[|steps| - 1].OurCall? then 1 else 0)
  }

  lemma {:induction false} GapNeverMovesBack(r: RelayState, r': RelayState, b: seq<Header>, from: nat, upto: nat)
    requires from <= upto <= |b|
    requires forall h :: from <= h < upto ==> b[h].hash in r'.stored
    ensures FirstUnstored(r', b, from) >= upto
  {
  }

  lemma {:induction false} CallReducesMissing(r: RelayState, r': RelayState, b: seq<Header>, cfg: Config,
                                              sub: Submission)
    requires b != [] && Usable(r, b) && RootOnBacking(r, b)
    requires SubmitStep(r, b, cfg, sub, r') && cfg.maxBatchSize >= 1
    ensures RootOnBacking(r', b) && r'.rootHeight == r.rootHeight
    ensures !OnlyGenesisShared(r, b) ==> Missing(r', b, cfg) <= SatSub(Missing(r, b, cfg), cfg.maxBatchSize)
  {
    hide Rooted, MainIsBranch, Agrees, Linked, Store;
    match sub
    case StartFailed =>
    case Waited =>
    case Refused(_) =>
    case Submitted(from, headers) =>
      StoreAdds(r.stored, b, from, |headers|);
      GapNeverMovesBack(r, r', b, r.rootHeight, from + |headers|);
  }

  /** Exactly when a call makes progress: unless the relay shares only a header at height 0. */
  lemma {:induction false} CallProgressesIff(r: RelayState, r': RelayState, b: seq<Header>, cfg: Config,
                                             sub: Submission)
    requires b != [] && Usable(r, b) && RootOnBacking(r, b)
    requires SubmitStep(r, b, cfg, sub, r') && cfg.maxBatchSize >= 1 && Missing(r, b, cfg) > 0
    ensures RootOnBacking(r', b) && r'.rootHeight == r.rootHeight
    ensures Missing(r', b, cfg) < Missing(r, b, cfg) <==> !OnlyGenesisShared(r, b)
  {
    CallReducesMissing(r, r', b, cfg, sub);
  }

  lemma {:induction false} StepReducesMissing(r: RelayState, r': RelayState, b: seq<Header>, cfg: Config, step: Step)
    requires b != [] && Usable(r, b) && RootOnBacking(r, b) && RunStep(r, b, cfg, step, r') && cfg.maxBatchSize >= 1
    requires step.OurCall? ==> !OnlyGenesisShared(r, b)
    ensures RootOnBacking(r', b) && r'.rootHeight == r.rootHeight
    ensures Missing(r', b, cfg) <= SatSub(Missing(r, b, cfg), if step.OurCall? then cfg.maxBatchSize else 0)
  {
    hide Rooted, MainIsBranch, Agrees, Linked, SubmitStep;
    match step
    case OurCall(sub) => CallReducesMissing(r, r', b, cfg, sub);
    case Others => GapNeverMovesBack(r, r', b, r.rootHeight, FirstUnstored(r, b, r.rootHeight));
  }

  /** What our calls of a run can submit at most. */
  function Capacity(steps: seq<Step>, cfg: Config): nat {
    if steps == [] then 0
    else Capacity(steps[..|steps| - 1], cfg) + (if steps[|steps| - 1].OurCall? then cfg.maxBatchSize else 0)
  }

  lemma {:induction false} CapacityIsProduct(steps: seq<Step>, cfg: Config)
    ensures Capacity(steps, cfg) == Calls(steps) * cfg.maxBatchSize
  {
    if steps != [] {
      CapacityIsProduct(steps[..|steps| - 1], cfg);
      assert (Calls(steps[..|steps| - 1]) + 1) * cfg.maxBatchSize
          == Calls(steps[..|steps| - 1]) * cfg.maxBatchSize + cfg.maxBatchSize;
    }
  }

  /** Main result: every one of our calls uses its full batch size as long as something is
      missing, in any order with other relayers' submissions and whatever fork the main chain is on. */
  lemma {:induction false} RunReducesMissing(states: seq<RelayState>, steps: seq<Step>, b: seq<Header>, cfg: Config)
    requires b != [] && Run(states, steps, b, cfg) && RootOnBacking(states[0], b) && cfg.maxBatchSize >= 1
    requires PastGenesis(states, steps, b)
    ensures RootOnBacking(states[|steps|], b) && states[|steps|].rootHeight == states[0].rootHeight
    ensures Missing(states[|steps|], b, cfg) <= SatSub(Missing(states[0], b, cfg), Capacity(steps, cfg))
    decreases |steps|
  {
    hide Usable, RunStep, FirstUnstored, NumConfirmed;
    if steps != [] {
      var k := |steps| - 1;
      var init := states[..k + 1];
      assert Run(init, steps[..k], b, cfg) && PastGenesis(init, steps[..k], b);
      RunReducesMissing(init, steps[..k], b, cfg);
      assert init[k] == states[k] && init[0] == states[0];
      StepReducesMissing(states[k], states[k + 1], b, cfg, steps[k]);
    }
  }

  /** So `ceil(missing / max_batch_size)` calls store every confirmed header. */
  lemma {:induction false} CatchUp(states: seq<RelayState>, steps: seq<Step>, b: seq<Header>, cfg: Config, h: nat)
    requires b != [] && Run(states, steps, b, cfg) && RootOnBacking(states[0], b) && cfg.maxBatchSize >= 1
    requires PastGenesis(states, steps, b)
    requires Calls(steps) >= CeilDiv(Missing(states[0], b, cfg), cfg.maxBatchSize)
    requires states[0].rootHeight <= h && h + cfg.btcConfirmations <= |b| - 1
    ensures b[h].hash in states[|steps|].stored
  {
    hide Usable, RunStep, CeilDiv, Calls, Capacity;
    RunReducesMissing(states, steps, b, cfg);
    assert Capacity(steps, cfg) >= Missing(states[0], b, cfg) by {
      CapacityIsProduct(steps, cfg);
      EnoughCalls(Missing(states[0], b, cfg), Calls(steps), cfg.maxBatchSize);
    }
  }

  lemma {:induction false} EnoughCalls(m: nat, calls: nat, batch: nat)
    requires batch >= 1 && calls >= CeilDiv(m, batch)
    ensures calls * batch >= m
  {
    CeilDivBounds(m, batch);
    MulMonotone(CeilDiv(m, batch), calls, batch);
  }

  /** The height-0 case does happen: it is the state right after an initialization at height 0,
      where the first header is stored and yet is what the search answers. */
  lemma {:induction false} GenesisIsSharedAlone(b: seq<Header>)
    requires Linked(b) && b != []
    ensures var r := RelayState(map[b[0].hash := Stored(0, b[0].prev)], map[0 := b[0].hash], 0, b[0].hash, 0);
            && Valid(r, b) && RootOnBacking(r, b) && OnlyGenesisShared(r, b)
            && FirstUnstored(r, b, 0) == 1
  {
    var r := RelayState(map[b[0].hash := Stored(0, b[0].prev)], map[0 := b[0].hash], 0, b[0].hash, 0);
    if |b| > 1 {
      assert FirstUnstored(r, b, 1) == 1;
    }
  }
}
