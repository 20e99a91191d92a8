/**
 `execute_open_requests`: after a restart, decide for every open request whether to follow an
 existing payment or to make a new one, from what the recovery scan reports.
 */
module Execution {
  import opened Prelude
  import opened Transactions
  import opened Scan

  type RequestId = seq<Byte>

  // `payload` is `None` when the address of the request does not convert.
  datatype Request = Request(hash: RequestId, btcHeight: Option<nat>, amount: nat, payload: Option<Payload>)

  type Requests = map<RequestId, Request>

  predicate KeyedByHash(open: Requests) {
    forall h :: h in open ==> open[h].hash == h
  }

  /** The map collected from the pending redeem and replace requests. */
  function Collect(requests: seq<Request>): (open: Requests)
    ensures KeyedByHash(open)
    ensures forall r :: r in requests ==> r.hash in open
  {
    if requests == [] then map[]
    else Collect(requests[..|requests| - 1])[requests[|requests| - 1].hash := requests[|requests| - 1]]
  }

  function HeightOf(r: Request): nat {
    match r.btcHeight case Some(h) => h case None => U32_MAX
  }

  /** Where the scan stops: the least height any of the open requests was opened at. */
  method StartHeight(values: seq<Request>) returns (h: Option<nat>)
    ensures h.None? <==> values == []
    ensures h.Some? ==> exists i :: 0 <= i < |values| && HeightOf(values[i]) == h.value
    ensures h.Some? ==> forall i :: 0 <= i < |values| ==> h.value <= HeightOf(values[i])
    ensures h.Some? ==>
              forall i :: 0 <= i < |values| && values[i].btcHeight.Some? ==> h.value <= values[i].btcHeight.value
    ensures h.Some? ==> h.value == U32_MAX || exists i :: 0 <= i < |values| && values[i].btcHeight == h
  {
    h := None;
    for i := 0 to |values|
      invariant h.None? <==> i == 0
      invariant h.Some? ==> exists j :: 0 <= j < i && HeightOf(values[j]) == h.value
      invariant h.Some? ==> forall j :: 0 <= j < i ==> h.value <= HeightOf(values[j])
    {
      if h == None || HeightOf(values[i]) < h.value {
        h := Some(HeightOf(values[i]));
      }
    }
  }

  /** A transaction that pays a request in full. */
  predicate Fulfils(tx: Transaction, r: Request) {
    r.payload.Some? && Satisfies(tx, r.hash, r.payload.value, r.amount)
  }

  function GetRequestForBtcTx(tx: Transaction, open: Requests): Option<Request> {
    var hash := GetOpReturn(tx);
    if hash == None || hash.value !in open then None
    else
      var request := open[hash.value];
      if request.payload == None then None
      else
        var paid := GetPaymentAmountTo(tx, request.payload.value);
        if paid.Some? && paid.value >= request.amount then Some(request) else None
  }

  /** The lookup finds the request a transaction fulfils, and there is at most one. */
  lemma {:induction false} LookupIsExact(tx: Transaction, open: Requests)
    requires KeyedByHash(open)
    ensures match GetRequestForBtcTx(tx, open)
            case Some(r) => r.hash in open && open[r.hash] == r && Fulfils(tx, r)
                            && forall h :: h in open && Fulfils(tx, open[h]) ==> h == r.hash
            case None => forall h :: h in open ==> !Fulfils(tx, open[h])
  {
  }

  datatype ScanItem = TxItem(tx: Tx) | TransportError | OtherError

  datatype Lookup = FoundTx(txid: Txid) | NoTx | LookupError

  datatype Action = Follow(hash: RequestId, txid: Txid) | Pay(hash: RequestId)

  // ------------------------------------------------------------------ what the outcome must be

  predicate OnePerRequest(actions: seq<Action>) {
    forall i, j :: 0 <= i < j < |actions| ==> actions[i].hash != actions[j].hash
  }

  ghost predicate Acted(actions: seq<Action>, h: RequestId) {
    exists i :: 0 <= i < |actions| && actions[i].hash == h
  }

  /** Item `k` is the first of `items` to fulfil `r`. */
  ghost predicate FirstFulfilled(items: seq<ScanItem>, r: Request, k: nat) {
    && k < |items| && items[k].TxItem? && Fulfils(items[k].tx.body, r)
    && forall j :: 0 <= j < k && items[j].TxItem? ==> !Fulfils(items[j].tx.body, r)
  }

  ghost predicate NoneFulfils(items: seq<ScanItem>, r: Request) {
    forall j :: 0 <= j < |items| && items[j].TxItem? ==> !Fulfils(items[j].tx.body, r)
  }

  /** Why an action is justified: a followed transaction was the first seen to pay the request or
      was found by direct lookup, and a new payment has no known predecessor. */
  ghost predicate Justified(a: Action, open: Requests, items: seq<ScanItem>, lookups: map<RequestId, Lookup>) {
    && a.hash in open
    && var r := open[a.hash];
    match a
    case Follow(h, txid) =>
      || (exists k: nat :: FirstFulfilled(items, r, k) && items[k].tx.id == txid)
      || (NoneFulfils(items, r) && h in lookups && lookups[h] == FoundTx(txid))
    case Pay(h) => NoneFulfils(items, r) && h in lookups && lookups[h] == NoTx
  }

  lemma {:induction false} FoundFirst(items: seq<ScanItem>, r: Request, k: nat)
    requires k < |items| && NoneFulfils(items[..k], r) && items[k].TxItem? && Fulfils(items[k].tx.body, r)
    ensures FirstFulfilled(items, r, k)
  {
    assert forall j :: 0 <= j < k ==> items[..k][j] == items[j];
  }

  ghost predicate ScanProgress(open: Requests, left: Requests, actions: seq<Action>, items: seq<ScanItem>, i: nat)
    requires i <= |items|
  {
    && KeyedByHash(left)
    && (forall h :: h in left ==> h in open && left[h] == open[h] && NoneFulfils(items[..i], open[h]))
    && OnePerRequest(actions)
    && (forall h :: h in open ==> (h in left <==> !Acted(actions, h)))
    && (forall k :: 0 <= k < |actions| ==> FollowsScan(actions[k], open, items))
  }

  ghost predicate FollowsScan(a: Action, open: Requests, items: seq<ScanItem>) {
    a.Follow? && a.hash in open && exists k: nat :: FirstFulfilled(items, open[a.hash], k) && items[k].tx.id == a.txid
  }

  lemma {:induction false} AppendAction(actions: seq<Action>, a: Action)
    requires OnePerRequest(actions) && !Acted(actions, a.hash)
    ensures OnePerRequest(actions + [a])
    ensures forall h :: Acted(actions + [a], h) <==> Acted(actions, h) || h == a.hash
  {
    var more := actions + [a];
    forall h ensures Acted(more, h) <==> Acted(actions, h) || h == a.hash {
      if Acted(actions, h) {
        var i :| 0 <= i < |actions| && actions[i].hash == h;
        assert more[i].hash == h;
      }
      if h == a.hash {
        assert more[|actions|].hash == h;
      }
    }
  }

  lemma {:induction false} NoneFulfilsStep(items: seq<ScanItem>, r: Request, i: nat)
    requires i < |items| && NoneFulfils(items[..i], r)
    requires items[i].TxItem? ==> !Fulfils(items[i].tx.body, r)
    ensures NoneFulfils(items[..i + 1], r)
  {
    assert items[..i + 1] == items[..i] + [items[i]];
  }

  /** The scanning loop: every matching transaction retires its request and starts one worker. */
  method FollowScanned(open: Requests, items: seq<ScanItem>)
    returns (left: Requests, actions: seq<Action>, completed: bool)
    requires KeyedByHash(open)
    ensures OnePerRequest(actions)
    ensures forall k :: 0 <= k < |actions| ==> FollowsScan(actions[k], open, items)
    ensures completed ==> TransportError !in items && ScanProgress(open, left, actions, items, |items|)
    ensures !completed ==> TransportError in items
  {
    left, actions := open, [];
    for i := 0 to |items|
      invariant ScanProgress(open, left, actions, items, i)
      invariant TransportError !in items[..i]
    {
      match items[i] {
        case TransportError => return left, actions, false;
        case OtherError =>
          forall h | h in left ensures NoneFulfils(items[..i + 1], open[h]) {
            NoneFulfilsStep(items, open[h], i);
          }
        case TxItem(tx) =>
          LookupIsExact(tx.body, left);
          var request := GetRequestForBtcTx(tx.body, left);
          ghost var before := left;
          if request.Some? {
            left := map h | h in left && h != request.value.hash :: left[h];
            FoundFirst(items, request.value, i);
            AppendAction(actions, Follow(request.value.hash, tx.id));
            actions := actions + [Follow(request.value.hash, tx.id)];
          }
          forall h | h in left ensures NoneFulfils(items[..i + 1], open[h]) {
            assert h in before && !Fulfils(tx.body, before[h]);
            NoneFulfilsStep(items, open[h], i);
          }
      }
      assert items[..i + 1] == items[..i] + [items[i]];
    }
    assert items[..|items|] == items;
    completed := true;
  }

  /** `execute_open_requests` from the collected map on. Whatever the order in which the remaining
      requests are visited, every action is justified and no request is acted on twice; a run that
      completes acts on every request whose direct lookup did not fail. */
  method ExecuteOpenRequests(open: Requests, isFullNode: bool, items: seq<ScanItem>, lookups: map<RequestId, Lookup>)
    returns (actions: seq<Action>, completed: bool)
    requires KeyedByHash(open) && lookups.Keys == open.Keys
    ensures OnePerRequest(actions)
    ensures var seen := if isFullNode then items else [];
            forall k :: 0 <= k < |actions| ==> Justified(actions[k], open, seen, lookups)
    ensures completed ==>
              forall h :: h in open ==> Settled(actions, h, open, if isFullNode then items else [], lookups)
    ensures !completed ==> TransportError in items || exists h :: h in open && open[h].payload == None
  {
    var left := open;
    actions := [];
    ghost var seen := if isFullNode then items else [];
    if isFullNode {
      left, actions, completed := FollowScanned(open, items);
      if !completed {
        return;
      }
      assert items[..|items|] == items;
    } else {
      assert ScanProgress(open, left, actions, [], 0);
    }
    var todo := left.Keys;
    while todo != {}
      invariant todo <= left.Keys
      invariant OnePerRequest(actions)
      invariant forall k :: 0 <= k < |actions| ==> Justified(actions[k], open, seen, lookups)
      invariant forall h :: h in open ==> (Acted(actions, h) ==> h !in todo)
      invariant forall h :: h in open && h !in todo ==>
                  Acted(actions, h) || (lookups[h] == LookupError && NoneFulfils(seen, open[h]))
      decreases todo
    {
      var h :| h in todo;
      var request := left[h];
      if request.payload == None {
        return actions, false;
      }
      todo := todo - {h};
      match lookups[h] {
        case FoundTx(txid) =>
          AppendAction(actions, Follow(h, txid));
          actions := actions + [Follow(h, txid)];
        case NoTx =>
          AppendAction(actions, Pay(h));
          actions := actions + [Pay(h)];
        case LookupError =>
      }
    }
    completed := true;
    forall h | h in open ensures Settled(actions, h, open, seen, lookups) {
      JustifiedIsSettled(actions, h, open, seen, lookups);
    }
  }

  /** What must have been done about request `h`: follow the first reported payment, else what the
      direct lookup found, else pay, unless the lookup failed. */
  ghost predicate Settled(actions: seq<Action>, h: RequestId, open: Requests, items: seq<ScanItem>,
                          lookups: map<RequestId, Lookup>)
    requires h in open && h in lookups
  {
    && (forall k: nat :: FirstFulfilled(items, open[h], k) ==> Follow(h, items[k].tx.id) in actions)
    && (NoneFulfils(items, open[h]) ==>
          match lookups[h]
          case FoundTx(txid) => Follow(h, txid) in actions
          case NoTx => Pay(h) in actions
          case LookupError => !Acted(actions, h))
  }

  lemma {:induction false} FirstIsUnique(items: seq<ScanItem>, r: Request, k: nat, k': nat)
    requires FirstFulfilled(items, r, k) && FirstFulfilled(items, r, k')
    ensures k == k'
  {
    hide Fulfils;
  }

  /** Justified actions, at most one per request and one for all but failed lookups, leave nothing
      open about what was done. */
  lemma {:induction false} JustifiedIsSettled(actions: seq<Action>, h: RequestId, open: Requests, items: seq<ScanItem>,
                                              lookups: map<RequestId, Lookup>)
    requires forall k :: 0 <= k < |actions| ==> Justified(actions[k], open, items, lookups)
    requires h in open && h in lookups
    requires Acted(actions, h) || (lookups[h] == LookupError && NoneFulfils(items, open[h]))
    ensures Settled(actions, h, open, items, lookups)
  {
    if Acted(actions, h) {
      var i :| 0 <= i < |actions| && actions[i].hash == h;
      assert Justified(actions[i], open, items, lookups);
      forall k: nat | FirstFulfilled(items, open[h], k) ensures Follow(h, items[k].tx.id) in actions {
        assert !NoneFulfils(items, open[h]);
        var k': nat :| FirstFulfilled(items, open[h], k') && items[k'].tx.id == actions[i].txid;
        FirstIsUnique(items, open[h], k, k');
      }
      assert NoneFulfils(items, open[h]) ==> forall k: nat :: !FirstFulfilled(items, open[h], k);
    }
  }

  // ------------------------------------------------------------------ end to end

  function Reported(txs: seq<Tx>): seq<ScanItem> {
    seq(|txs|, i requires 0 <= i < |txs| => TxItem(txs[i]))
  }

  /** No double payment, for one action: if a transaction paying an open request was in the mempool,
      or in a block no older than the request, when the scan started, then an action that the scan's
      report justifies does not pay it again. */
  lemma {:induction false} NoDoublePayment(n: Node, stop: nat, listed: seq<Txid>, events: seq<Event>, open: Requests,
                                           lookups: map<RequestId, Lookup>, action: Action, t: Tx)
    requires Linked(n.chain) && 1 <= stop <= |n.chain| && Lists(listed, n) && ValidRun(n, events)
    requires Finished(RunScan(StartScan(listed), n, stop, events).0)
    requires action.hash in open && stop <= HeightOf(open[action.hash]) && PaidAt(n, open[action.hash], t)
    requires Justified(action, open, Reported(RunScan(StartScan(listed), n, stop, events).0.yielded), lookups)
    ensures action.Follow?
  {
    var ys := RunScan(StartScan(listed), n, stop, events).0.yielded;
    ScanIsComplete(n, stop, listed, events);
    assert VisibleAt(n, stop, t);
    var j :| 0 <= j < |ys| && ys[j] == t;
    assert Reported(ys)[j] == TxItem(t);
    assert !NoneFulfils(Reported(ys), open[action.hash]);
  }

  /** `t` pays `r` and is in the mempool, or in a block no older than `r`. */
  ghost predicate PaidAt(n: Node, r: Request, t: Tx) {
    Fulfils(t.body, r) && VisibleAt(n, HeightOf(r), t)
  }

  /** `HashMap::values`, in some order. */
  method ValuesOf(open: Requests) returns (values: seq<Request>)
    ensures forall h :: h in open ==> open[h] in values
    ensures forall r :: r in values ==> exists h :: h in open && open[h] == r
  {
    values := [];
    var todo := open.Keys;
    while todo != {}
      invariant todo <= open.Keys
      invariant forall h :: h in open && h !in todo ==> open[h] in values
      invariant forall r :: r in values ==> exists h :: h in open && open[h] == r
      decreases todo
    {
      var h :| h in todo;
      values := values + [open[h]];
      todo := todo - {h};
    }
  }

  /** Recovery after a restart on a full node, against a node that goes on working: collect the open
      requests, scan down to the oldest of them, and act. Each request gets at most one action, and
      none that was already paid when the scan started is paid again. */
  method Recover(requests: seq<Request>, n: Node, listed: seq<Txid>, events: seq<Event>,
                 lookups: map<RequestId, Lookup>) returns (actions: seq<Action>, completed: bool)
    requires Linked(n.chain) && Lists(listed, n) && ValidRun(n, events)
    requires forall r :: r in requests ==> HeightOf(r) >= 1
    requires Polls(events) >= EnoughPolls(listed, LastNode(n, events).chain)
    requires lookups.Keys == Collect(requests).Keys
    ensures OnePerRequest(actions)
    ensures SomeWithin(Collect(requests), |n.chain|) ==>
              forall k :: 0 <= k < |actions| ==> !PaysAgain(actions[k], Collect(requests), n)
    ensures !completed ==> exists h :: h in Collect(requests) && Collect(requests)[h].payload == None
    ensures forall k :: 0 <= k < |actions| ==> actions[k].hash in Collect(requests)
    ensures forall stop :: LeastHeight(Collect(requests), stop) ==>
              DoneRight(actions, completed, Collect(requests), lookups, ReportOf(n, listed, events, stop))
  {
    var open := Collect(requests);
    CollectedAreRequests(requests);
    var values := ValuesOf(open);
    var start := StartHeight(values);
    if start == None {
      NothingOpen(open, values);
      return [], true;
    }
    var stop := start.value;
    assert stop >= 1 && (SomeWithin(open, |n.chain|) ==> stop <= |n.chain|) by {
      var i :| 0 <= i < |values| && HeightOf(values[i]) == stop;
      assert values[i] in values;
      if SomeWithin(open, |n.chain|) {
        var h :| h in open && HeightOf(open[h]) <= |n.chain|;
        assert open[h] in values;
      }
    }
    ScanEnds(n, stop, listed, events);
    var report := ReportOf(n, listed, events, stop);
    actions, completed := ExecuteOpenRequests(open, true, report, lookups);
    assert forall i :: 0 <= i < |report| ==> report[i].TxItem?;
    forall other | LeastHeight(open, other) ensures other == stop {
      var h :| h in open && HeightOf(open[h]) == other;
      assert open[h] in values;
      var i :| 0 <= i < |values| && HeightOf(values[i]) == stop;
      assert values[i] in values;
    }
    forall k | SomeWithin(open, |n.chain|) && 0 <= k < |actions| ensures !PaysAgain(actions[k], open, n) {
      if PaysAgain(actions[k], open, n) {
        var t :| PaidAt(n, open[actions[k].hash], t);
        assert open[actions[k].hash] in values;
        NoDoublePayment(n, stop, listed, events, open, lookups, actions[k], t);
      }
    }
  }

  /** Some open request is no more than one block above the tip of a chain of `length` blocks. */
  predicate SomeWithin(open: Requests, length: nat) {
    exists h :: h in open && HeightOf(open[h]) <= length
  }

  ghost predicate LeastHeight(open: Requests, stop: nat) {
    && (exists h :: h in open && HeightOf(open[h]) == stop)
    && (forall h :: h in open ==> stop <= HeightOf(open[h]))
  }

  /** What the scan down to `stop` reports. */
  function ReportOf(n: Node, listed: seq<Txid>, events: seq<Event>, stop: nat): seq<ScanItem> {
    Reported(RunScan(StartScan(listed), n, stop, events).0.yielded)
  }

  /** Every action has its reason in the report or the lookup, and a completed run has done for every
      request what these say. */
  ghost predicate DoneRight(actions: seq<Action>, completed: bool, open: Requests, lookups: map<RequestId, Lookup>,
                            report: seq<ScanItem>)
    requires lookups.Keys == open.Keys
  {
    && (forall k :: 0 <= k < |actions| ==> Justified(actions[k], open, report, lookups))
    && (completed ==> forall h :: h in open ==> Settled(actions, h, open, report, lookups))
  }

  /** A new payment for a request that was already paid. */
  ghost predicate PaysAgain(action: Action, open: Requests, n: Node) {
    action.Pay? && action.hash in open && exists t :: PaidAt(n, open[action.hash], t)
  }

  lemma {:induction false} NothingOpen(open: Requests, values: seq<Request>)
    requires values == [] && forall h :: h in open ==> open[h] in values
    ensures open == map[]
  {
  }

  lemma {:induction false} CollectedAreRequests(requests: seq<Request>)
    ensures forall h :: h in Collect(requests) ==> Collect(requests)[h] in requests
  {
    if requests != [] {
      CollectedAreRequests(requests[..|requests| - 1]);
    }
  }

  // ------------------------------------------------------------------ a node that lags behind

  /** Outcomes that the contract of `ExecuteOpenRequests` leaves for a run of the scan. */
  ghost predicate Outcome(open: Requests, lookups: map<RequestId, Lookup>, yielded: seq<Tx>, actions: seq<Action>)
    requires lookups.Keys == open.Keys
  {
    && OnePerRequest(actions)
    && (forall k :: 0 <= k < |actions| ==> Justified(actions[k], open, Reported(yielded), lookups))
    && (forall h :: h in open ==> Acted(actions, h) || lookups[h] == LookupError)
  }

  /** If every open request lies two or more blocks above the tip of the local node, there is a run
      after which every request is paid, whether or not its payment waits in the mempool. */
  lemma {:induction false} LaggingNodePaysAgain(open: Requests, n: Node, stop: nat, lookups: map<RequestId, Lookup>)
      returns (listed: seq<Txid>, events: seq<Event>)
    requires Linked(n.chain) && stop > |n.chain| && KeyedByHash(open)
    requires lookups.Keys == open.Keys && forall h :: h in open ==> lookups[h] == NoTx
    ensures Lists(listed, n) && ValidRun(n, events) && Finished(RunScan(StartScan(listed), n, stop, events).0)
    ensures forall actions, h ::
              Outcome(open, lookups, RunScan(StartScan(listed), n, stop, events).0.yielded, actions) && h in open ==>
              Pay(h) in actions
  {
    listed, events := HighStopHeightMisses(n, stop);
    forall actions: seq<Action>, h | Outcome(open, lookups, [], actions) && h in open ensures Pay(h) in actions {
      assert Acted(actions, h);
      var i :| 0 <= i < |actions| && actions[i].hash == h;
      assert Justified(actions[i], open, Reported([]), lookups);
      assert Reported([]) == [];
      assert actions[i] == Pay(h);
    }
  }

  /** Whatever run: an open request that was paid when the scan started is noticed by it. */
  ghost predicate AlwaysNoticed(open: Requests, n: Node, stop: nat) {
    forall listed, events :: Lists(listed, n) && ValidRun(n, events) ==> NoticedOn(open, n, stop, listed, events)
  }

  ghost predicate NoticedOn(open: Requests, n: Node, stop: nat, listed: seq<Txid>, events: seq<Event>) {
    var s := RunScan(StartScan(listed), n, stop, events).0;
    Finished(s) ==>
      forall h, t :: h in open && PaidAt(n, open[h], t) ==> !NoneFulfils(Reported(s.yielded), open[h])
  }

  /** Exactly when recovery is safe from paying again: the least opening height is at most one above
      the tip, or no open request has been paid. */
  lemma {:induction false} RecoverySafeIff(open: Requests, n: Node, stop: nat)
    requires Linked(n.chain) && stop >= 1 && forall h :: h in open ==> stop <= HeightOf(open[h])
    ensures AlwaysNoticed(open, n, stop)
            <==> stop <= |n.chain| || forall h, t :: h in open ==> !PaidAt(n, open[h], t)
  {
    if stop <= |n.chain| {
      forall listed, events | Lists(listed, n) && ValidRun(n, events)
        ensures NoticedOn(open, n, stop, listed, events)
      {
        if Finished(RunScan(StartScan(listed), n, stop, events).0) {
          ScanNotices(open, n, stop, listed, events);
        }
      }
    } else {
      var listed, events := HighStopHeightMisses(n, stop);
      forall h, t | AlwaysNoticed(open, n, stop) && h in open ensures !PaidAt(n, open[h], t) {
        assert NoticedOn(open, n, stop, listed, events);
        assert NoneFulfils(Reported([]), open[h]);
      }
    }
  }

  lemma {:induction false} ScanNotices(open: Requests, n: Node, stop: nat, listed: seq<Txid>, events: seq<Event>)
    requires Linked(n.chain) && 1 <= stop <= |n.chain| && Lists(listed, n) && ValidRun(n, events)
    requires forall h :: h in open ==> stop <= HeightOf(open[h])
    requires Finished(RunScan(StartScan(listed), n, stop, events).0)
    ensures NoticedOn(open, n, stop, listed, events)
  {
    var ys := RunScan(StartScan(listed), n, stop, events).0.yielded;
    ScanIsComplete(n, stop, listed, events);
    forall h, t | h in open && PaidAt(n, open[h], t) ensures !NoneFulfils(Reported(ys), open[h]) {
      assert VisibleAt(n, stop, t);
      var j :| 0 <= j < |ys| && ys[j] == t;
      assert Reported(ys)[j] == TxItem(t);
    }
  }
}
