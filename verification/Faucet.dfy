/**
 The faucet cooldown: requests for an account are checked against its last record and recorded
 under a lock, while any number of them run concurrently, transfer afterwards, and may fail at any
 point. Times are in nanoseconds, the resolution of the clock.
 */
module Faucet {
  type Account = nat

  const SECOND: nat := 1_000_000_000

  datatype AccountType = User | Vault

  datatype FaucetRequest = FaucetRequest(datetime: int, accountType: AccountType)

  /** Records are written as RFC 2822 text, which drops the fraction of a second. */
  function ToSecond(t: int): (r: int)
    ensures t - SECOND < r <= t
  {
    t - t % SECOND
  }

  predicate HasRequestExpired(datetime: int, threshold: int, current: AccountType, previous: AccountType) {
    datetime < threshold || (current == Vault && previous == User)
  }

  predicate Allowed(kv: map<Account, FaucetRequest>, a: Account, threshold: int, kind: AccountType) {
    a in kv ==> HasRequestExpired(kv[a].datetime, threshold, kind, kv[a].accountType)
  }

  // ------------------------------------------------------------------ concurrent requests

  // A request waits for the lock with the account type and threshold it computed before, transfers
  // once it is granted, and ends with or without success.
  datatype Request =
    | Waiting(account: Account, kind: AccountType, threshold: int)
    | Transferring(account: Account)
    | Succeeded(account: Account)
    | Failed(account: Account)

  // What happened to the record of an account: a grant wrote it, or the failure of a request, granted
  // or not, removed it.
  datatype Entry = Granted(id: nat, time: int, kind: AccountType) | Removed(id: nat)

  datatype World = World(now: int, kv: map<Account, FaucetRequest>, requests: map<nat, Request>,
                         log: map<Account, seq<Entry>>)

  // `Fail`: the error is one of those that reset the record; `Abandon`: any other error.
  datatype Step =
    | Tick(t: int)
    | Arrive(id: nat, account: Account, kind: AccountType)
    | Lock(id: nat)
    | Finish(id: nat)
    | Fail(id: nat)
    | Abandon(id: nat)

  predicate Open(r: Request) {
    r.Waiting? || r.Transferring?
  }

  predicate Enabled(w: World, step: Step) {
    match step
    case Tick(t) => t >= w.now
    case Arrive(id, _, _) => id !in w.requests
    case Lock(id) => id in w.requests && w.requests[id].Waiting?
    case Finish(id) => id in w.requests && w.requests[id].Transferring?
    case Fail(id) => id in w.requests && Open(w.requests[id])
    case Abandon(id) => id in w.requests && Open(w.requests[id])
  }

  function Log(w: World, a: Account): seq<Entry> {
    if a in w.log then w.log[a] else []
  }

  function After(w: World, step: Step, cooldown: nat): World
    requires Enabled(w, step)
  {
    match step
    case Tick(t) => w.(now := t)
    case Arrive(id, a, kind) => w.(requests := w.requests[id := Waiting(a, kind, w.now - cooldown)])
    case Lock(id) =>
      var r := w.requests[id];
      if Allowed(w.kv, r.account, r.threshold, r.kind)
      then w.(kv := w.kv[r.account := FaucetRequest(ToSecond(w.now), r.kind)],
              requests := w.requests[id := Transferring(r.account)],
              log := w.log[r.account := Log(w, r.account) + [Granted(id, w.now, r.kind)]])
      else w.(requests := w.requests[id := Failed(r.account)])
    case Finish(id) => w.(requests := w.requests[id := Succeeded(w.requests[id].account)])
    case Fail(id) =>
      var a := w.requests[id].account;
      w.(kv := w.kv - {a}, requests := w.requests[id := Failed(a)], log := w.log[a := Log(w, a) + [Removed(id)]])
    case Abandon(id) => w.(requests := w.requests[id := Failed(w.requests[id].account)])
  }

  // ------------------------------------------------------------------ what every step keeps

  /** Two grants in a row: the cooldown has passed since the first was recorded, or a user became
      a vault. */
  predicate Spaced(g: Entry, g': Entry, cooldown: nat) {
    g.Granted? && g'.Granted? ==>
      && g.time <= g'.time
      && (g'.time - ToSecond(g.time) > cooldown || (g.kind == User && g'.kind == Vault))
  }

  /** The record is what the last entry wrote, and none if it was removed. */
  predicate Recorded(log: seq<Entry>, kv: map<Account, FaucetRequest>, a: Account) {
    if log != [] && log[|log| - 1].Granted?
    then a in kv && kv[a] == FaucetRequest(ToSecond(log[|log| - 1].time), log[|log| - 1].kind)
    else a !in kv
  }

  ghost predicate GoodEntry(w: World, e: Entry) {
    && (e.Granted? ==> e.time <= w.now)
    && e.id in w.requests && !w.requests[e.id].Waiting?
    && (e.Removed? ==> w.requests[e.id].Failed?)
  }

  ghost predicate GoodLog(w: World, a: Account, cooldown: nat) {
    var log := Log(w, a);
    && Recorded(log, w.kv, a)
    && (forall i :: 0 <= i < |log| ==> GoodEntry(w, log[i]))
    && (forall i :: 0 <= i < |log| - 1 ==> Spaced(log[i], log[i + 1], cooldown))
  }

  ghost predicate Inv(w: World, cooldown: nat) {
    && (forall id :: id in w.requests && w.requests[id].Waiting? ==> w.requests[id].threshold <= w.now - cooldown)
    && (forall a :: GoodLog(w, a, cooldown))
  }

  /** Entries stay good while requests move on and the clock advances. */
  lemma {:induction false} EntriesStayGood(w: World, step: Step, cooldown: nat, e: Entry)
    requires Enabled(w, step) && GoodEntry(w, e)
    ensures GoodEntry(After(w, step, cooldown), e)
  {
  }

  lemma {:induction false} AppendKeepsGood(w: World, w': World, a: Account, e: Entry, cooldown: nat)
    requires GoodLog(w, a, cooldown) && Log(w', a) == Log(w, a) + [e]
    requires forall x :: GoodEntry(w, x) ==> GoodEntry(w', x)
    requires GoodEntry(w', e) && Recorded(Log(w', a), w'.kv, a)
    requires Log(w, a) != [] ==> Spaced(Log(w, a)[|Log(w, a)| - 1], e, cooldown)
    ensures GoodLog(w', a, cooldown)
  {
    hide GoodEntry, Spaced, Recorded;
    var log := Log(w, a);
    forall i | 0 <= i < |log + [e]| - 1 ensures Spaced((log + [e])[i], (log + [e])[i + 1], cooldown) {
      if i < |log| - 1 {
        assert Spaced(log[i], log[i + 1], cooldown);
      }
    }
  }

  lemma {:induction false} SameLogStaysGood(w: World, w': World, a: Account, cooldown: nat)
    requires GoodLog(w, a, cooldown) && Log(w', a) == Log(w, a)
    requires forall x :: GoodEntry(w, x) ==> GoodEntry(w', x)
    requires (a in w'.kv <==> a in w.kv) && (a in w.kv ==> w'.kv[a] == w.kv[a])
    ensures GoodLog(w', a, cooldown)
  {
    hide GoodEntry, Spaced;
  }

  lemma {:induction false} GrantIsSpaced(w: World, id: nat, cooldown: nat)
    requires Inv(w, cooldown) && id in w.requests && w.requests[id].Waiting?
    requires var r := w.requests[id]; Allowed(w.kv, r.account, r.threshold, r.kind)
    ensures var r := w.requests[id];
            var log := Log(w, r.account);
            log != [] ==> Spaced(log[|log| - 1], Granted(id, w.now, r.kind), cooldown)
  {
    var r := w.requests[id];
    var log := Log(w, r.account);
    assert GoodLog(w, r.account, cooldown);
    if log != [] {
      assert GoodEntry(w, log[|log| - 1]);
    }
  }

  lemma {:induction false} StepKeepsInv(w: World, step: Step, cooldown: nat)
    requires Inv(w, cooldown) && Enabled(w, step)
    ensures Inv(After(w, step, cooldown), cooldown)
  {
    var w' := After(w, step, cooldown);
    forall x | GoodEntry(w, x) ensures GoodEntry(w', x) {
      EntriesStayGood(w, step, cooldown, x);
    }
    forall a ensures GoodLog(w', a, cooldown) {
      assert GoodLog(w, a, cooldown);
      if Log(w', a) == Log(w, a) {
        SameLogStaysGood(w, w', a, cooldown);
      } else {
        var e := if step.Lock? then Granted(step.id, w.now, w.requests[step.id].kind) else Removed(step.id);
        if step.Lock? {
          GrantIsSpaced(w, step.id, cooldown);
        }
        AppendKeepsGood(w, w', a, e, cooldown);
      }
    }
  }

  ghost predicate ValidRun(w: World, steps: seq<Step>, cooldown: nat)
    decreases |steps|
  {
    steps == [] || (Enabled(w, steps[0]) && ValidRun(After(w, steps[0], cooldown), steps[1..], cooldown))
  }

  ghost function Final(w: World, steps: seq<Step>, cooldown: nat): World
    requires ValidRun(w, steps, cooldown)
    decreases |steps|
  {
    if steps == [] then w else Final(After(w, steps[0], cooldown), steps[1..], cooldown)
  }

  lemma {:induction false} RunKeepsInv(w: World, steps: seq<Step>, cooldown: nat)
    requires Inv(w, cooldown) && ValidRun(w, steps, cooldown)
    ensures Inv(Final(w, steps, cooldown), cooldown)
    decreases |steps|
  {
    if steps != [] {
      StepKeepsInv(w, steps[0], cooldown);
      RunKeepsInv(After(w, steps[0], cooldown), steps[1..], cooldown);
    }
  }

  // ------------------------------------------------------------------ the cooldown

  /** The record was not removed between entries `i` and `j`, which are grants. */
  predicate Unbroken(log: seq<Entry>, i: nat, j: nat) {
    i < j < |log| && forall k :: i <= k <= j ==> log[k].Granted?
  }

  /** If the grants `i` and `j` are close in time, they are a user grant and the vault grant after it. */
  predicate CloseGrants(log: seq<Entry>, i: nat, j: nat, cooldown: nat)
    requires Unbroken(log, i, j)
  {
    log[j].time - log[i].time <= cooldown - (SECOND - 1) ==>
      j == i + 1 && log[i].kind == User && log[j].kind == Vault
  }

  lemma {:induction false} TimesOrdered(log: seq<Entry>, i: nat, j: nat, cooldown: nat)
    requires i <= j < |log| && forall k :: i <= k <= j ==> log[k].Granted?
    requires forall k :: 0 <= k < |log| - 1 ==> Spaced(log[k], log[k + 1], cooldown)
    ensures log[i].time <= log[j].time
    decreases j
  {
    if i < j {
      TimesOrdered(log, i, j - 1, cooldown);
      assert Spaced(log[j - 1], log[j], cooldown);
    }
  }

  /** Main result: over any interleaving of concurrent requests, two grants to an account that are
      closer than the cooldown by a second less a nanosecond or more, with no removal of the record
      in between, are a user grant and the vault grant right after it; so no such window holds
      three. */
  lemma {:induction false} CooldownHolds(w: World, steps: seq<Step>, cooldown: nat, a: Account, i: nat, j: nat)
    requires Inv(w, cooldown) && ValidRun(w, steps, cooldown)
    requires Unbroken(Log(Final(w, steps, cooldown), a), i, j)
    ensures CloseGrants(Log(Final(w, steps, cooldown), a), i, j, cooldown)
  {
    RunKeepsInv(w, steps, cooldown);
    var w' := Final(w, steps, cooldown);
    assert GoodLog(w', a, cooldown);
    InvKeepsCooldown(Log(w', a), i, j, cooldown);
  }

  lemma {:induction false} InvKeepsCooldown(log: seq<Entry>, i: nat, j: nat, cooldown: nat)
    requires forall k :: 0 <= k < |log| - 1 ==> Spaced(log[k], log[k + 1], cooldown)
    requires Unbroken(log, i, j)
    ensures CloseGrants(log, i, j, cooldown)
  {
    var k := i + 1;
    assert Spaced(log[i], log[k], cooldown);
    TimesOrdered(log, k, j, cooldown);
    if k < j {
      TimesOrdered(log, k + 1, j, cooldown);
      ThreeInARow(log[i], log[k], log[k + 1], cooldown);
    }
  }

  /** A vault grant cannot be followed within the cooldown, so three grants in a row span it. */
  lemma {:induction false} ThreeInARow(g: Entry, g': Entry, g'': Entry, cooldown: nat)
    requires g.Granted? && g'.Granted? && g''.Granted?
    requires Spaced(g, g', cooldown) && Spaced(g', g'', cooldown)
    ensures g''.time - g.time > cooldown - (SECOND - 1)
  {
    if g'.time - ToSecond(g.time) <= cooldown {
      assert g''.time - ToSecond(g'.time) > cooldown;
    }
  }

  lemma {:induction false} InitialIsGood(now: int, cooldown: nat)
    ensures Inv(World(now, map[], map[], map[]), cooldown)
  {
  }

  // ------------------------------------------------------------------ what successful requests get

  ghost predicate SuccessfulPair(w: World, a: Account, i: nat, j: nat) {
    var log := Log(w, a);
    && i < j < |log| && log[i].Granted? && log[j].Granted? && log[i].kind == log[j].kind
    && log[i].id in w.requests && w.requests[log[i].id].Succeeded?
    && log[j].id in w.requests && w.requests[log[j].id].Succeeded?
  }

  /** Two successful grants of one kind that are too close: in between, the failure of yet another
      request removed the record. */
  lemma {:induction false} ClosePairNeedsFailure(w: World, steps: seq<Step>, cooldown: nat, a: Account, i: nat, j: nat)
      returns (k: nat)
    requires Inv(w, cooldown) && ValidRun(w, steps, cooldown)
    requires SuccessfulPair(Final(w, steps, cooldown), a, i, j)
    requires var log := Log(Final(w, steps, cooldown), a); log[j].time - log[i].time <= cooldown - (SECOND - 1)
    ensures var w' := Final(w, steps, cooldown);
            var log := Log(w', a);
            && i < k < j && log[k].Removed? && log[k].id in w'.requests && w'.requests[log[k].id].Failed?
            && log[k].id != log[i].id && log[k].id != log[j].id
  {
    var w' := Final(w, steps, cooldown);
    var log := Log(w', a);
    RunKeepsInv(w, steps, cooldown);
    assert GoodLog(w', a, cooldown);
    if forall k :: i <= k <= j ==> log[k].Granted? {
      InvKeepsCooldown(log, i, j, cooldown);
    }
    k :| i <= k <= j && log[k].Removed?;
    assert GoodEntry(w', log[k]);
  }

  /** The exact rule, in every reachable state: a request made and decided now is granted if and only
      if the account has no record because nothing was granted or a failure removed it, or the
      cooldown has passed since the whole second of the last grant, or a user has become a vault. */
  lemma {:induction false} GrantedIff(w: World, id: nat, a: Account, kind: AccountType, cooldown: nat)
    requires Inv(w, cooldown) && id !in w.requests
    ensures var w1 := After(w, Arrive(id, a, kind), cooldown);
            var w2 := After(w1, Lock(id), cooldown);
            var log := Log(w, a);
            && Log(w2, a) == log + (if w2.requests[id].Transferring? then [Granted(id, w.now, kind)] else [])
            && (w2.requests[id].Transferring? <==>
                  || log == [] || log[|log| - 1].Removed?
                  || w.now - ToSecond(log[|log| - 1].time) > cooldown
                  || (log[|log| - 1].kind == User && kind == Vault))
  {
    assert GoodLog(w, a, cooldown);
  }

  lemma {:induction false} RunUnfolds(w: World, steps: seq<Step>, cooldown: nat)
    requires steps != []
    ensures ValidRun(w, steps, cooldown)
            <==> Enabled(w, steps[0]) && ValidRun(After(w, steps[0], cooldown), steps[1..], cooldown)
    ensures ValidRun(w, steps, cooldown) ==>
              Final(w, steps, cooldown) == Final(After(w, steps[0], cooldown), steps[1..], cooldown)
  {
  }

  /** The failure of one request erases the grant of another: a user is granted, becomes a vault and
      is granted again successfully; then the first transfer fails, and a second vault grant succeeds
      at the same moment. */
  lemma {:induction false} FailureErasesGrant(t: int, a: Account, cooldown: nat) returns (steps: seq<Step>)
    ensures ValidRun(World(t, map[], map[], map[]), steps, cooldown)
    ensures var w := Final(World(t, map[], map[], map[]), steps, cooldown);
            && Log(w, a) == [Granted(0, t, User), Granted(1, t, Vault), Removed(0), Granted(2, t, Vault)]
            && SuccessfulPair(w, a, 1, 3)
  {
    hide After, ValidRun, Final, Enabled;
    var w0 := World(t, map[], map[], map[]);
    var tail3 := [Arrive(2, a, Vault), Lock(2), Finish(2)];
    var tail2 := [Finish(1), Fail(0)] + tail3;
    var tail1 := [Arrive(1, a, Vault), Lock(1)] + tail2;
    steps := [Arrive(0, a, User), Lock(0)] + tail1;
    var w2 := Ask(w0, 0, a, User, tail1, cooldown);
    var w4 := Ask(w2, 1, a, Vault, tail2, cooldown);
    var w6 := SucceedThenFail(w4, 1, 0, a, tail3, cooldown);
    assert Log(w6, a) == [Granted(0, t, User), Granted(1, t, Vault), Removed(0)];
    assert tail3 == [Arrive(2, a, Vault), Lock(2)] + [Finish(2)];
    var w8 := Ask(w6, 2, a, Vault, [Finish(2)], cooldown);
    assert Log(w8, a) == [Granted(0, t, User), Granted(1, t, Vault), Removed(0), Granted(2, t, Vault)];
    LastFinish(w8, 2, cooldown);
  }

  /** A run starting with a request that is granted. */
  lemma {:induction false} Ask(w: World, id: nat, a: Account, kind: AccountType, rest: seq<Step>, cooldown: nat)
      returns (w': World)
    requires id !in w.requests && Allowed(w.kv, a, w.now - cooldown, kind)
    ensures w' == World(w.now, w.kv[a := FaucetRequest(ToSecond(w.now), kind)], w.requests[id := Transferring(a)],
                        w.log[a := Log(w, a) + [Granted(id, w.now, kind)]])
    ensures SameEnd(w, [Arrive(id, a, kind), Lock(id)] + rest, w', rest, cooldown)
  {
    var steps := [Arrive(id, a, kind), Lock(id)] + rest;
    assert steps[2..] == rest;
    w' := After(After(w, steps[0], cooldown), steps[1], cooldown);
    TwoSteps(w, steps, cooldown);
    assert w'.requests == w.requests[id := Transferring(a)];
  }

  /** A run starting with the success of one transfer and the failure of another. */
  lemma {:induction false} SucceedThenFail(w: World, good: nat, bad: nat, a: Account, rest: seq<Step>, cooldown: nat)
      returns (w': World)
    requires good != bad && good in w.requests && bad in w.requests
    requires w.requests[good] == Transferring(a) && w.requests[bad] == Transferring(a)
    ensures w' == World(w.now, w.kv - {a}, w.requests[good := Succeeded(a)][bad := Failed(a)],
                        w.log[a := Log(w, a) + [Removed(bad)]])
    ensures SameEnd(w, [Finish(good), Fail(bad)] + rest, w', rest, cooldown)
  {
    var steps := [Finish(good), Fail(bad)] + rest;
    assert steps[2..] == rest;
    w' := After(After(w, steps[0], cooldown), steps[1], cooldown);
    TwoSteps(w, steps, cooldown);
  }

  lemma {:induction false} LastFinish(w: World, id: nat, cooldown: nat)
    requires id in w.requests && w.requests[id].Transferring?
    ensures ValidRun(w, [Finish(id)], cooldown)
    ensures Final(w, [Finish(id)], cooldown) == w.(requests := w.requests[id := Succeeded(w.requests[id].account)])
  {
    RunUnfolds(w, [Finish(id)], cooldown);
  }

  /** Both runs are valid or neither is, and they end in the same state. */
  ghost predicate SameEnd(w: World, steps: seq<Step>, w': World, rest: seq<Step>, cooldown: nat) {
    && (ValidRun(w, steps, cooldown) <==> ValidRun(w', rest, cooldown))
    && (ValidRun(w, steps, cooldown) ==> Final(w, steps, cooldown) == Final(w', rest, cooldown))
  }

  lemma {:induction false} TwoSteps(w: World, steps: seq<Step>, cooldown: nat)
    requires |steps| >= 2 && Enabled(w, steps[0]) && Enabled(After(w, steps[0], cooldown), steps[1])
    ensures var w2 := After(After(w, steps[0], cooldown), steps[1], cooldown);
            && (ValidRun(w, steps, cooldown) <==> ValidRun(w2, steps[2..], cooldown))
            && (ValidRun(w, steps, cooldown) ==> Final(w, steps, cooldown) == Final(w2, steps[2..], cooldown))
  {
    RunUnfolds(w, steps, cooldown);
    RunUnfolds(After(w, steps[0], cooldown), steps[1..], cooldown);
    assert steps[1..][1..] == steps[2..];
  }

  // ------------------------------------------------------------------ the lost second

  /** Two requests for one account, the first at the current time and the second at `later`. */
  function TwoRequests(later: int, a: Account, first: AccountType, second: AccountType): seq<Step> {
    [Arrive(0, a, first), Lock(0), Tick(later), Arrive(1, a, second), Lock(1)]
  }

  /** What two requests get, for all times: the second is granted exactly when the cooldown has
      passed since the whole second of the first, or a user has become a vault. */
  lemma {:induction false} TwoRequestsGet(t: int, later: int, a: Account, first: AccountType, second: AccountType,
                                          cooldown: nat)
    requires t <= later
    ensures var w, steps := World(t, map[], map[], map[]), TwoRequests(later, a, first, second);
            && ValidRun(w, steps, cooldown)
            && Log(Final(w, steps, cooldown), a) ==
               [Granted(0, t, first)] +
               (if later - ToSecond(t) > cooldown || (first == User && second == Vault)
                then [Granted(1, later, second)] else [])
  {
    var w, steps := World(t, map[], map[], map[]), TwoRequests(later, a, first, second);
    var w2 := After(After(w, steps[0], cooldown), steps[1], cooldown);
    assert w2.kv == map[a := FaucetRequest(ToSecond(t), first)] && w2.requests == map[0 := Transferring(a)];
    assert Log(w2, a) == [Granted(0, t, first)];
    var w4 := After(After(w2, steps[2], cooldown), steps[3], cooldown);
    TwoSteps(w, steps, cooldown);
    TwoSteps(w2, steps[2..], cooldown);
    assert steps[2..][2..] == [Lock(1)];
    RunUnfolds(w4, [Lock(1)], cooldown);
  }

  /** Two grants within the full cooldown of each other. */
  ghost predicate GrantedTwice(t: int, later: int, a: Account, first: AccountType, second: AccountType, cooldown: nat) {
    var w, steps := World(t, map[], map[], map[]), TwoRequests(later, a, first, second);
    && t <= later <= t + cooldown
    && ValidRun(w, steps, cooldown) && |Log(Final(w, steps, cooldown), a)| == 2
  }

  /** The full cooldown is kept after a grant at `t` exactly when `t` is a whole second, unless a user
      becomes a vault. */
  lemma {:induction false} FullCooldownIff(t: int, a: Account, first: AccountType, second: AccountType, cooldown: nat)
    requires !(first == User && second == Vault)
    ensures (exists later :: GrantedTwice(t, later, a, first, second, cooldown)) <==> t % SECOND != 0
  {
    forall later | t <= later
      ensures GrantedTwice(t, later, a, first, second, cooldown)
              <==> later <= t + cooldown && later - ToSecond(t) > cooldown
    {
      TwoRequestsGet(t, later, a, first, second, cooldown);
    }
    if t % SECOND != 0 {
      assert GrantedTwice(t, t + cooldown, a, first, second, cooldown);
    }
  }

  /** The bound of `CooldownHolds` is tight: a grant in the last nanosecond of a second can be
      followed by one of the same kind a nanosecond beyond it. */
  lemma {:induction false} LostSecond(t: int, a: Account, kind: AccountType, cooldown: nat)
    requires t % SECOND == SECOND - 1 && cooldown >= SECOND - 2
    ensures GrantedTwice(t, t + cooldown - (SECOND - 1) + 1, a, kind, kind, cooldown)
  {
    TwoRequestsGet(t, t + cooldown - (SECOND - 2), a, kind, kind, cooldown);
  }

  // ------------------------------------------------------------------ the faucet itself

  class Store {
    var now: int
    var kv: map<Account, FaucetRequest>
    var requests: map<nat, Request>
    ghost var log: map<Account, seq<Entry>>

    constructor (now: int)
      ensures Value() == World(now, map[], map[], map[])
    {
      this.now, kv, requests, log := now, map[], map[], map[];
    }

    ghost function Value(): World
      reads this
    {
      World(now, kv, requests, log)
    }

    /** The critical section: the check of `ensure_funding_allowed` and the write that follows it. */
    method CheckAndRecord(a: Account, kind: AccountType, threshold: int) returns (granted: bool)
      modifies this`kv
      ensures granted == Allowed(old(kv), a, threshold, kind)
      ensures kv == if granted then old(kv)[a := FaucetRequest(ToSecond(now), kind)] else old(kv)
    {
      if a in kv {
        var last := kv[a];
        if !HasRequestExpired(last.datetime, threshold, kind, last.accountType) {
          return false;
        }
      }
      kv := kv[a := FaucetRequest(ToSecond(now), kind)];
      return true;
    }

    /** A failed request resets the record, whoever wrote it: the account may ask again at once, and
        what every other account may ask for is as before. */
    method Remove(a: Account)
      modifies this`kv
      ensures forall threshold, kind :: Allowed(kv, a, threshold, kind)
      ensures forall b, threshold, kind :: b != a ==>
                (Allowed(kv, b, threshold, kind) <==> Allowed(old(kv), b, threshold, kind))
      ensures kv == old(kv) - {a}
    {
      kv := kv - {a};
    }

    method Advance(step: Step, cooldown: nat)
      requires Enabled(Value(), step)
      modifies this
      ensures Value() == After(old(Value()), step, cooldown)
    {
      match step {
        case Tick(t) => now := t;
        case Arrive(id, a, kind) => requests := requests[id := Waiting(a, kind, now - cooldown)];
        case Lock(id) =>
          var r := requests[id];
          ghost var before := Log(Value(), r.account);
          var granted := CheckAndRecord(r.account, r.kind, r.threshold);
          if granted {
            requests := requests[id := Transferring(r.account)];
            log := log[r.account := before + [Granted(id, now, r.kind)]];
          } else {
            requests := requests[id := Failed(r.account)];
          }
        case Finish(id) => requests := requests[id := Succeeded(requests[id].account)];
        case Fail(id) =>
          var a := requests[id].account;
          log := log[a := Log(Value(), a) + [Removed(id)]];
          Remove(a);
          requests := requests[id := Failed(a)];
        case Abandon(id) => requests := requests[id := Failed(requests[id].account)];
      }
    }

    /** The faucet under any interleaving of requests, clock ticks and failures. */
    method Serve(steps: seq<Step>, cooldown: nat)
      requires Inv(Value(), cooldown) && ValidRun(Value(), steps, cooldown)
      modifies this
      ensures Value() == Final(old(Value()), steps, cooldown)
      ensures forall a, i, j :: Unbroken(Log(Value(), a), i, j) ==> CloseGrants(Log(Value(), a), i, j, cooldown)
    {
      ghost var start := Value();
      for i := 0 to |steps|
        invariant ValidRun(Value(), steps[i..], cooldown)
        invariant Final(Value(), steps[i..], cooldown) == Final(start, steps, cooldown)
      {
        assert steps[i..][1..] == steps[i + 1..];
        Advance(steps[i], cooldown);
      }
      forall a, i, j | Unbroken(Log(Value(), a), i, j) ensures CloseGrants(Log(Value(), a), i, j, cooldown) {
        CooldownHolds(start, steps, cooldown, a, i, j);
      }
    }
  }
}
