/**
 The cancellation scheduler: an event-driven cache of the vault's open requests, which cancels
 each one after both of its deadlines have passed. The run model lets the chain change between
 any two steps of the scheduler and delivers events in any order.
 */
module Cancellation {
  import opened Prelude
  import opened Deadlines

  type RequestId = nat

  datatype OpenTime = OpenTime(id: RequestId, parachainOpen: nat, bitcoinOpen: nat, period: nat)

  datatype ActiveRequest = ActiveRequest(id: RequestId, deadline: Deadline)

  datatype ListState = Valid | Invalid

  datatype Event = Opened | Executed(id: RequestId) | ParachainBlock(height: nat) | BitcoinBlock(height: nat)

  // ------------------------------------------------------------------ refreshing the list

  function Convert(t: OpenTime, globalPeriod: nat): Option<ActiveRequest> {
    var d := SchedulerDeadline(t.parachainOpen, t.bitcoinOpen, t.period, globalPeriod);
    if d == None then None else Some(ActiveRequest(t.id, d.value))
  }

  /** `get_open_requests`: one request whose deadline overflows fails the whole refresh. */
  function ConvertAll(ts: seq<OpenTime>, globalPeriod: nat): (r: Option<seq<ActiveRequest>>)
    ensures r.Some? <==> forall i :: 0 <= i < |ts| ==> Convert(ts[i], globalPeriod).Some?
    ensures r.Some? ==>
              |r.value| == |ts| && forall i :: 0 <= i < |ts| ==> Some(r.value[i]) == Convert(ts[i], globalPeriod)
  {
    if ts == [] then Some([])
    else
      var init := ConvertAll(ts[..|ts| - 1], globalPeriod);
      var last := Convert(ts[|ts| - 1], globalPeriod);
      if init.Some? && last.Some? then Some(init.value + [last.value]) else None
  }

  /** A listed request is drained exactly once both chains are past its opening plus the longer of the
      global and its own period. */
  lemma {:induction false} ListedExpiresIff(t: OpenTime, globalPeriod: nat, ph: nat, bh: nat)
    requires t.period <= U32_MAX && globalPeriod <= U32_MAX && Convert(t, globalPeriod).Some?
    ensures var a := Convert(t, globalPeriod).value;
            var period := Max(globalPeriod, t.period);
            && a.id == t.id
            && (HasExpired(a, ph, bh) <==> ph > t.parachainOpen + period && bh > t.bitcoinOpen + CeilDiv(period, 50))
  {
    ExpiredIff(t.parachainOpen, t.bitcoinOpen, t.period, globalPeriod, ph, bh);
  }

  // ------------------------------------------------------------------ draining expired requests

  predicate HasExpired(a: ActiveRequest, ph: nat, bh: nat) {
    Expired(a.deadline, ph, bh)
  }

  function ExpiredOf(rs: seq<ActiveRequest>, ph: nat, bh: nat): seq<ActiveRequest> {
    if rs == [] then []
    else
      var init, last := ExpiredOf(rs[..|rs| - 1], ph, bh), rs[|rs| - 1];
      if HasExpired(last, ph, bh) then init + [last] else init
  }

  function KeptOf(rs: seq<ActiveRequest>, ph: nat, bh: nat): seq<ActiveRequest> {
    if rs == [] then []
    else
      var init, last := KeptOf(rs[..|rs| - 1], ph, bh), rs[|rs| - 1];
      if HasExpired(last, ph, bh) then init else init + [last]
  }

  /** Draining loses and duplicates nothing. */
  lemma {:induction false} DrainConserves(rs: seq<ActiveRequest>, ph: nat, bh: nat)
    ensures multiset(KeptOf(rs, ph, bh)) + multiset(ExpiredOf(rs, ph, bh)) == multiset(rs)
  {
    hide HasExpired;
    if rs != [] {
      DrainConserves(rs[..|rs| - 1], ph, bh);
      assert rs == rs[..|rs| - 1] + [rs[|rs| - 1]];
    }
  }

  /** And it splits the list by the expiry rule. */
  lemma {:induction false} DrainSplits(rs: seq<ActiveRequest>, ph: nat, bh: nat)
    ensures forall a :: a in ExpiredOf(rs, ph, bh) <==> a in rs && HasExpired(a, ph, bh)
    ensures forall a :: a in KeptOf(rs, ph, bh) <==> a in rs && !HasExpired(a, ph, bh)
  {
    hide HasExpired;
    if rs != [] {
      DrainSplits(rs[..|rs| - 1], ph, bh);
      assert rs == rs[..|rs| - 1] + [rs[|rs| - 1]];
    }
  }

  /** `drain_expired`: the loop that removes from the vector in place. */
  method DrainExpired(requests: seq<ActiveRequest>, ph: nat, bh: nat)
    returns (rest: seq<ActiveRequest>, expired: seq<ActiveRequest>)
    ensures rest == KeptOf(requests, ph, bh) && expired == ExpiredOf(requests, ph, bh)
  {
    rest, expired := requests, [];
    var i := 0;
    ghost var j := 0;
    while i != |rest|
      invariant 0 <= i <= |rest| && 0 <= j <= |requests|
      invariant rest == KeptOf(requests[..j], ph, bh) + requests[j..]
      invariant i == |KeptOf(requests[..j], ph, bh)|
      invariant expired == ExpiredOf(requests[..j], ph, bh)
      decreases |rest| - i
    {
      assert rest[i] == requests[j];
      assert requests[..j + 1][..j] == requests[..j];
      if HasExpired(rest[i], ph, bh) {
        var req := rest[i];
        rest := rest[..i] + rest[i + 1..];
        expired := expired + [req];
      } else {
        i := i + 1;
      }
      j := j + 1;
    }
    assert requests[..j] == requests;
  }

  // ------------------------------------------------------------------ one event

  datatype Phase = Idle | Cancelling(queue: seq<ActiveRequest>)

  datatype Sched = Sched(ph: nat, bh: nat, active: seq<ActiveRequest>, list: ListState, phase: Phase)

  function Without(rs: seq<ActiveRequest>, id: RequestId): (r: seq<ActiveRequest>)
    ensures forall a :: a in r <==> a in rs && a.id != id
  {
    if rs == [] then []
    else
      var init, last := Without(rs[..|rs| - 1], id), rs[|rs| - 1];
      assert rs == rs[..|rs| - 1] + [last];
      if last.id != id then init + [last] else init
  }

  function Refreshed(s: Sched, latest: Option<seq<ActiveRequest>>): seq<ActiveRequest> {
    if s.list.Valid? then s.active else if latest.Some? then latest.value else []
  }

  function BeginCancel(s: Sched, active: seq<ActiveRequest>): Sched {
    s.(active := KeptOf(active, s.ph, s.bh), list := Valid, phase := Cancelling(ExpiredOf(active, s.ph, s.bh)))
  }

  /** The first half of `process_event`: refresh if needed, then react. `latest` is what the chain
      answers if it is asked. */
  function StartEvent(s: Sched, e: Event, latest: Option<seq<ActiveRequest>>): Sched {
    var active := Refreshed(s, latest);
    match e
    case ParachainBlock(h) => BeginCancel(s.(ph := h), active)
    case BitcoinBlock(h) => BeginCancel(s.(bh := h), active)
    case Executed(id) => s.(active := Without(active, id), list := Valid)
    case Opened => s.(active := active, list := Invalid)
  }

  /** One round of the loop in `cancel_requests`; the first failure abandons the rest. */
  function CancelStep(s: Sched, ok: bool): Sched
    requires s.phase.Cancelling?
  {
    if s.phase.queue == [] then s.(phase := Idle)
    else if ok then s.(phase := Cancelling(s.phase.queue[1..]))
    else s.(phase := Idle, list := Invalid)
  }

  function CancelAll(s: Sched, ok: set<RequestId>): Sched
    requires s.phase.Cancelling?
    decreases |s.phase.queue|
  {
    if s.phase.queue == [] then CancelStep(s, true)
    else if s.phase.queue[0].id in ok then CancelAll(CancelStep(s, true), ok)
    else CancelStep(s, false)
  }

  function ProcessEventOf(s: Sched, e: Event, latest: Option<seq<ActiveRequest>>, ok: set<RequestId>): Sched
    requires s.phase.Idle?
  {
    var s' := StartEvent(s, e, latest);
    if s'.phase.Cancelling? then CancelAll(s', ok) else s'
  }

  /** What a round of cancellations leaves: exactly the requests not past both deadlines stay listed,
      only others are cancelled, all of them if the list is to be trusted, and it is to be trusted
      exactly when the parachain accepts them all. */
  ghost predicate CancelOutcome(active: seq<ActiveRequest>, ok: set<RequestId>, ph: nat, bh: nat,
                                rest: seq<ActiveRequest>, list: ListState, cancelled: set<RequestId>)
  {
    && (forall a :: a in rest <==> a in active && !(ph > a.deadline.parachain && bh > a.deadline.bitcoin))
    && (forall id :: id in cancelled ==>
          id in ok && exists a :: a in active && a.id == id && ph > a.deadline.parachain && bh > a.deadline.bitcoin)
    && (list == Valid <==>
          forall a :: a in active && ph > a.deadline.parachain && bh > a.deadline.bitcoin ==> a.id in ok)
    && (list == Valid ==>
          forall a :: a in active && ph > a.deadline.parachain && bh > a.deadline.bitcoin ==> a.id in cancelled)
  }

  /** The requests of `queue` up to the first that the parachain refuses. */
  function AcceptedPrefix(queue: seq<ActiveRequest>, ok: set<RequestId>): set<RequestId> {
    if queue == [] || queue[0].id !in ok then {} else {queue[0].id} + AcceptedPrefix(queue[1..], ok)
  }

  class CancellationScheduler {
    var parachainHeight: nat
    var bitcoinHeight: nat

    constructor (ph: nat, bh: nat)
      ensures parachainHeight == ph && bitcoinHeight == bh
    {
      parachainHeight, bitcoinHeight := ph, bh;
    }

    function State(active: seq<ActiveRequest>, list: ListState): Sched
      reads this
    {
      Sched(parachainHeight, bitcoinHeight, active, list, Idle)
    }

    /** `ok` are the requests whose cancellation the parachain accepts. */
    method CancelRequests(active: seq<ActiveRequest>, ok: set<RequestId>)
      returns (rest: seq<ActiveRequest>, list: ListState, cancelled: set<RequestId>)
      ensures State(rest, list) == CancelAll(BeginCancel(State(active, Valid), active), ok)
      ensures CancelOutcome(active, ok, parachainHeight, bitcoinHeight, rest, list, cancelled)
      ensures cancelled == AcceptedPrefix(ExpiredOf(active, parachainHeight, bitcoinHeight), ok)
    {
      var cancellable;
      rest, cancellable := DrainExpired(active, parachainHeight, bitcoinHeight);
      cancelled := {};
      DrainSplits(active, parachainHeight, bitcoinHeight);
      ghost var s := BeginCancel(State(active, Valid), active);
      for i := 0 to |cancellable|
        invariant CancelAll(s, ok) == CancelAll(s.(phase := Cancelling(cancellable[i..])), ok)
        invariant forall j :: 0 <= j < i ==> cancellable[j].id in cancelled
        invariant AcceptedPrefix(cancellable, ok) == cancelled + AcceptedPrefix(cancellable[i..], ok)
        invariant forall id :: id in cancelled ==> id in ok && exists j :: 0 <= j < i && cancellable[j].id == id
      {
        assert cancellable[i] in cancellable;
        assert cancellable[i..][1..] == cancellable[i + 1..];
        if cancellable[i].id !in ok {
          assert cancellable[i] in active && HasExpired(cancellable[i], parachainHeight, bitcoinHeight);
          list := Invalid;
          return;
        }
        cancelled := cancelled + {cancellable[i].id};
      }
      list := Valid;
      forall a | a in active && HasExpired(a, parachainHeight, bitcoinHeight) ensures a.id in cancelled {
        assert a in cancellable;
      }
    }

    method ProcessEvent(event: Event, active: seq<ActiveRequest>, list: ListState, latest: Option<seq<ActiveRequest>>,
                        ok: set<RequestId>)
      returns (active': seq<ActiveRequest>, list': ListState, cancelled: set<RequestId>)
      modifies this
      ensures State(active', list') == ProcessEventOf(old(State(active, list)), event, latest, ok)
      ensures parachainHeight == (if event.ParachainBlock? then event.height else old(parachainHeight))
      ensures bitcoinHeight == (if event.BitcoinBlock? then event.height else old(bitcoinHeight))
      ensures var known := if list == Valid then active else if latest.Some? then latest.value else [];
              match event
              case Opened => active' == known && list' == Invalid && cancelled == {}
              case Executed(id) =>
                (forall a :: a in active' <==> a in known && a.id != id) && list' == Valid && cancelled == {}
              case _ => CancelOutcome(known, ok, parachainHeight, bitcoinHeight, active', list', cancelled)
    {
      active' := active;
      cancelled := {};
      if list == Invalid {
        match latest {
          case Some(x) => active' := x;
          case None => active' := [];
        }
      }
      match event {
        case ParachainBlock(height) =>
          parachainHeight := height;
          active', list', cancelled := CancelRequests(active', ok);
        case BitcoinBlock(height) =>
          bitcoinHeight := height;
          active', list', cancelled := CancelRequests(active', ok);
        case Executed(id) =>
          active' := Without(active', id);
          list' := Valid;
        case Opened =>
          list' := Invalid;
      }
    }
  }

  // ------------------------------------------------------------------ whole runs

  // `known`: every request ever opened. `pending`: those still open on chain. `inFlight`: events
  // on their way to the scheduler. `parachain`, `bitcoin`: the last block of each chain delivered to
  // it. `sent`: cancellations sent, with these heights.
  datatype World = World(known: map<RequestId, OpenTime>, pending: set<RequestId>, inFlight: multiset<Event>,
                         sched: Sched, parachain: nat, bitcoin: nat, sent: seq<(RequestId, nat, nat)>)

  datatype Step =
    | Open(t: OpenTime)
    | Execute(id: RequestId)
    | CancelledByOther(id: RequestId)
    | NewBlock(e: Event)
    | Start(e: Event, listing: seq<OpenTime>, refreshOk: bool, globalPeriod: nat)
    | Cancel(ok: bool)

  ghost predicate Lists(listing: seq<OpenTime>, w: World)
    requires w.pending <= w.known.Keys
  {
    && (forall id :: id in w.pending ==> exists i :: 0 <= i < |listing| && listing[i].id == id)
    && (forall i :: 0 <= i < |listing| ==> listing[i].id in w.pending && w.known[listing[i].id] == listing[i])
  }

  function Answer(listing: seq<OpenTime>, refreshOk: bool, globalPeriod: nat): Option<seq<ActiveRequest>> {
    if refreshOk then ConvertAll(listing, globalPeriod) else None
  }

  predicate U32Times(t: OpenTime) {
    t.parachainOpen <= U32_MAX && t.bitcoinOpen <= U32_MAX && t.period <= U32_MAX
  }

  ghost predicate Enabled(w: World, step: Step)
    requires w.pending <= w.known.Keys
  {
    match step
    case Open(t) => t.id !in w.known && U32Times(t)
    case Execute(id) => id in w.pending
    case CancelledByOther(id) => id in w.pending
    case NewBlock(e) => e.ParachainBlock? || e.BitcoinBlock?
    case Start(e, listing, _, globalPeriod) =>
      e in w.inFlight && w.sched.phase.Idle? && Lists(listing, w) && globalPeriod <= U32_MAX
    case Cancel(ok) =>
      && w.sched.phase.Cancelling?
      && (ok && w.sched.phase.queue != [] ==> w.sched.phase.queue[0].id in w.pending)
  }

  function After(w: World, step: Step): World {
    match step
    case Open(t) =>
      w.(known := w.known[t.id := t], pending := w.pending + {t.id}, inFlight := w.inFlight + multiset{Opened})
    case Execute(id) => w.(pending := w.pending - {id}, inFlight := w.inFlight + multiset{Executed(id)})
    case CancelledByOther(id) => w.(pending := w.pending - {id})
    case NewBlock(e) => w.(inFlight := w.inFlight + multiset{e})
    case Start(e, listing, refreshOk, globalPeriod) =>
      w.(inFlight := w.inFlight - multiset{e},
         parachain := if e.ParachainBlock? then e.height else w.parachain,
         bitcoin := if e.BitcoinBlock? then e.height else w.bitcoin,
         sched := StartEvent(w.sched, e, Answer(listing, refreshOk, globalPeriod)))
    case Cancel(ok) =>
      if w.sched.phase.Idle? then w
      else if w.sched.phase.queue == [] then w.(sched := CancelStep(w.sched, ok))
      else
        var a := w.sched.phase.queue[0];
        w.(sched := CancelStep(w.sched, ok), pending := if ok then w.pending - {a.id} else w.pending,
           sent := w.sent + [(a.id, w.parachain, w.bitcoin)])
  }

  /** The refresh of this step, if it makes one, succeeds. */
  predicate RefreshSucceeds(w: World, step: Step) {
    step.Start? && w.sched.list.Invalid? ==> Answer(step.listing, step.refreshOk, step.globalPeriod).Some?
  }

  /** The cached list is up to date in the sense the scheduler relies on. */
  predicate Trusted(s: Sched) {
    s.phase.Cancelling? || s.list.Valid?
  }

  predicate Listed(s: Sched, id: RequestId) {
    || (exists i :: 0 <= i < |s.active| && s.active[i].id == id)
    || (s.phase.Cancelling? && exists i :: 0 <= i < |s.phase.queue| && s.phase.queue[i].id == id)
  }

  /** Every pending request is in the cache, unless an `Opened` event is still to be processed. */
  ghost predicate Complete(w: World) {
    Trusted(w.sched) && Opened !in w.inFlight ==> forall id :: id in w.pending ==> Listed(w.sched, id)
  }

  /** An entry carries the deadlines of the request it is about, for some global period. */
  ghost predicate Genuine(a: ActiveRequest, known: map<RequestId, OpenTime>) {
    a.id in known && exists p: nat :: p <= U32_MAX && Convert(known[a.id], p) == Some(a)
  }

  ghost predicate AllGenuine(rs: seq<ActiveRequest>, known: map<RequestId, OpenTime>) {
    forall i :: 0 <= i < |rs| ==> Genuine(rs[i], known)
  }

  predicate AllExpired(rs: seq<ActiveRequest>, ph: nat, bh: nat) {
    forall i :: 0 <= i < |rs| ==> HasExpired(rs[i], ph, bh)
  }

  ghost predicate PastBothDeadlines(t: OpenTime, ph: nat, bh: nat) {
    && ph > t.parachainOpen + t.period
    && ToBitcoinBlocks(t.period).Some? && bh > t.bitcoinOpen + ToBitcoinBlocks(t.period).value
  }

  /** What the scheduler lists is genuine, and what it is about to cancel has expired. */
  ghost predicate SchedInv(s: Sched, known: map<RequestId, OpenTime>) {
    && AllGenuine(s.active, known)
    && (s.phase.Cancelling? ==> AllGenuine(s.phase.queue, known) && AllExpired(s.phase.queue, s.ph, s.bh))
  }

  /** What holds in every reachable state. */
  ghost predicate Inv(w: World) {
    && w.sched.ph == w.parachain && w.sched.bh == w.bitcoin
    && w.pending <= w.known.Keys
    && (forall id :: id in w.known ==> w.known[id].id == id && U32Times(w.known[id]))
    && (forall e :: e in w.inFlight && e.Executed? ==> e.id in w.known && e.id !in w.pending)
    && SchedInv(w.sched, w.known)
    && (forall k :: 0 <= k < |w.sent| ==>
          w.sent[k].0 in w.known && PastBothDeadlines(w.known[w.sent[k].0], w.sent[k].1, w.sent[k].2))
  }

  function Initial(ph: nat, bh: nat, known: map<RequestId, OpenTime>, pending: set<RequestId>): World {
    World(known, pending, multiset{}, Sched(ph, bh, [], Invalid, Idle), ph, bh, [])
  }

  lemma {:induction false} GenuineGrows(rs: seq<ActiveRequest>, known: map<RequestId, OpenTime>, t: OpenTime)
    requires AllGenuine(rs, known) && t.id !in known
    ensures AllGenuine(rs, known[t.id := t])
  {
    hide Convert;
    forall i | 0 <= i < |rs| ensures Genuine(rs[i], known[t.id := t]) {
      assert Genuine(rs[i], known);
      var p: nat :| p <= U32_MAX && Convert(known[rs[i].id], p) == Some(rs[i]);
      assert Convert(known[t.id := t][rs[i].id], p) == Some(rs[i]);
    }
  }

  lemma {:induction false} GenuineParts(rs: seq<ActiveRequest>, ph: nat, bh: nat, id: RequestId,
                                        known: map<RequestId, OpenTime>)
    requires AllGenuine(rs, known)
    ensures AllGenuine(KeptOf(rs, ph, bh), known) && AllGenuine(Without(rs, id), known)
    ensures AllGenuine(ExpiredOf(rs, ph, bh), known) && AllExpired(ExpiredOf(rs, ph, bh), ph, bh)
  {
    hide Genuine, HasExpired;
    DrainSplits(rs, ph, bh);
    forall a | a in rs ensures Genuine(a, known) {
    }
    assert forall i :: 0 <= i < |KeptOf(rs, ph, bh)| ==> KeptOf(rs, ph, bh)[i] in rs;
    assert forall i :: 0 <= i < |ExpiredOf(rs, ph, bh)| ==> ExpiredOf(rs, ph, bh)[i] in ExpiredOf(rs, ph, bh);
    assert forall i :: 0 <= i < |Without(rs, id)| ==> Without(rs, id)[i] in rs;
  }

  lemma {:induction false} AnswerIsGenuine(w: World, listing: seq<OpenTime>, refreshOk: bool, globalPeriod: nat)
    requires w.pending <= w.known.Keys && Lists(listing, w) && globalPeriod <= U32_MAX
    requires Answer(listing, refreshOk, globalPeriod).Some?
    ensures var latest := Answer(listing, refreshOk, globalPeriod).value;
            && AllGenuine(latest, w.known)
            && (forall id :: id in w.pending ==> exists i :: 0 <= i < |latest| && latest[i].id == id)
  {
    var latest := Answer(listing, refreshOk, globalPeriod).value;
    forall i | 0 <= i < |latest| ensures Genuine(latest[i], w.known) {
      assert Convert(listing[i], globalPeriod) == Some(latest[i]);
    }
    forall id | id in w.pending ensures exists i :: 0 <= i < |latest| && latest[i].id == id {
      var i :| 0 <= i < |listing| && listing[i].id == id;
      assert latest[i].id == id;
    }
  }

  lemma {:induction false} EmptyIsGenuine(known: map<RequestId, OpenTime>)
    ensures AllGenuine([], known)
  {
  }

  lemma {:induction false} StartKeepsInv(w: World, step: Step)
    requires Inv(w) && step.Start? && Enabled(w, step)
    ensures Inv(After(w, step))
  {
    hide AllGenuine, PastBothDeadlines, Answer, StartEvent;
    var latest := Answer(step.listing, step.refreshOk, step.globalPeriod);
    EmptyIsGenuine(w.known);
    if latest.Some? {
      AnswerIsGenuine(w, step.listing, step.refreshOk, step.globalPeriod);
    }
    StartEventKeepsSched(w.sched, step.e, latest, w.known);
  }

  lemma {:induction false} StartEventKeepsSched(s: Sched, e: Event, latest: Option<seq<ActiveRequest>>,
                                                known: map<RequestId, OpenTime>)
    requires SchedInv(s, known) && s.phase.Idle? && AllGenuine(Refreshed(s, latest), known)
    ensures var s' := StartEvent(s, e, latest);
            && SchedInv(s', known)
            && s'.ph == (if e.ParachainBlock? then e.height else s.ph)
            && s'.bh == (if e.BitcoinBlock? then e.height else s.bh)
  {
    hide AllGenuine, AllExpired, KeptOf, ExpiredOf;
    var s' := StartEvent(s, e, latest);
    GenuineParts(Refreshed(s, latest), s'.ph, s'.bh, if e.Executed? then e.id else 0, known);
  }

  lemma {:induction false} CancelKeepsInv(w: World, step: Step)
    requires Inv(w) && step.Cancel? && Enabled(w, step)
    ensures Inv(After(w, step))
  {
    var queue := w.sched.phase.queue;
    if queue != [] {
      var a, t := queue[0], w.known[queue[0].id];
      var p: nat :| p <= U32_MAX && Convert(t, p) == Some(a);
      ToBitcoinBlocksTotal(t.period);
      ExpiredIsPastOwnPeriod(t.parachainOpen, t.bitcoinOpen, t.period, p, w.sched.ph, w.sched.bh);
    }
  }

  lemma {:induction false} StepKeepsInv(w: World, step: Step)
    requires Inv(w) && Enabled(w, step)
    ensures Inv(After(w, step))
  {
    match step
    case Open(t) =>
      GenuineGrows(w.sched.active, w.known, t);
      if w.sched.phase.Cancelling? {
        GenuineGrows(w.sched.phase.queue, w.known, t);
      }
    case Execute(id) =>
    case CancelledByOther(id) =>
    case NewBlock(e) =>
    case Start(e, listing, refreshOk, globalPeriod) => StartKeepsInv(w, step);
    case Cancel(ok) => CancelKeepsInv(w, step);
  }

  lemma {:induction false} StartKeepsComplete(w: World, step: Step)
    requires Inv(w) && Complete(w) && step.Start? && Enabled(w, step) && RefreshSucceeds(w, step)
    ensures Complete(After(w, step))
  {
    var w' := After(w, step);
    var latest := Answer(step.listing, step.refreshOk, step.globalPeriod);
    var active := Refreshed(w.sched, latest);
    if step.e != Opened && Opened !in w'.inFlight {
      assert Opened !in w.inFlight;
      forall id | id in w'.pending ensures Listed(w'.sched, id) {
        if w.sched.list.Invalid? {
          AnswerIsGenuine(w, step.listing, step.refreshOk, step.globalPeriod);
        }
        var i :| 0 <= i < |active| && active[i].id == id;
        var a := active[i];
        assert a in active;
        DrainSplits(active, w'.sched.ph, w'.sched.bh);
        assert a in w'.sched.active || (w'.sched.phase.Cancelling? && a in w'.sched.phase.queue);
      }
    }
  }

  lemma {:induction false} CancelKeepsComplete(w: World, step: Step)
    requires Inv(w) && Complete(w) && step.Cancel? && Enabled(w, step)
    ensures Complete(After(w, step))
  {
    var w', queue := After(w, step), w.sched.phase.queue;
    if Trusted(w'.sched) && Opened !in w'.inFlight {
      forall id | id in w'.pending ensures Listed(w'.sched, id) {
        assert Listed(w.sched, id);
        if !(exists i :: 0 <= i < |w.sched.active| && w.sched.active[i].id == id) {
          var i :| 0 <= i < |queue| && queue[i].id == id;
          assert i > 0;
          assert queue[1..][i - 1].id == id;
        }
      }
    }
  }

  lemma {:induction false} StepKeepsComplete(w: World, step: Step)
    requires Inv(w) && Complete(w) && Enabled(w, step) && RefreshSucceeds(w, step)
    ensures Complete(After(w, step))
  {
    match step
    case Open(t) => assert Opened in After(w, step).inFlight;
    case Execute(id) =>
    case CancelledByOther(id) =>
    case NewBlock(e) =>
    case Start(e, listing, refreshOk, globalPeriod) => StartKeepsComplete(w, step);
    case Cancel(ok) => CancelKeepsComplete(w, step);
  }

  /** A run from `w`: every step is enabled where it is taken. */
  ghost predicate ValidRun(w: World, steps: seq<Step>)
    decreases |steps|
  {
    steps == [] || (w.pending <= w.known.Keys && Enabled(w, steps[0]) && ValidRun(After(w, steps[0]), steps[1..]))
  }

  ghost predicate RefreshesSucceed(w: World, steps: seq<Step>)
    decreases |steps|
  {
    steps == [] || (RefreshSucceeds(w, steps[0]) && RefreshesSucceed(After(w, steps[0]), steps[1..]))
  }

  function Final(w: World, steps: seq<Step>): World
    decreases |steps|
  {
    if steps == [] then w else Final(After(w, steps[0]), steps[1..])
  }

  /** Safety, in every run: a cancellation is sent only for a request that was opened and is past
      its own period on both chains, by the blocks delivered so far. */
  lemma {:induction false} CancelsAreDue(w: World, steps: seq<Step>)
    requires Inv(w) && ValidRun(w, steps)
    ensures Inv(Final(w, steps))
    ensures forall k :: 0 <= k < |Final(w, steps).sent| ==>
              var s := Final(w, steps).sent[k];
              s.0 in Final(w, steps).known && PastBothDeadlines(Final(w, steps).known[s.0], s.1, s.2)
    decreases |steps|
  {
    if steps != [] {
      StepKeepsInv(w, steps[0]);
      CancelsAreDue(After(w, steps[0]), steps[1..]);
    }
  }

  /** Completeness, in every run whose refreshes succeed: whenever the list is trusted and no
      `Opened` event is pending, every request still open on chain is in the scheduler's list. */
  lemma {:induction false} ListIsComplete(w: World, steps: seq<Step>)
    requires Inv(w) && Complete(w) && ValidRun(w, steps) && RefreshesSucceed(w, steps)
    ensures Complete(Final(w, steps))
    decreases |steps|
  {
    if steps != [] {
      StepKeepsInv(w, steps[0]);
      StepKeepsComplete(w, steps[0]);
      ListIsComplete(After(w, steps[0]), steps[1..]);
    }
  }

  lemma {:induction false} InitialIsGood(ph: nat, bh: nat, known: map<RequestId, OpenTime>, pending: set<RequestId>)
    requires pending <= known.Keys && forall id :: id in known ==> known[id].id == id && U32Times(known[id])
    ensures Inv(Initial(ph, bh, known, pending)) && Complete(Initial(ph, bh, known, pending))
  {
  }

  /** Why the refreshes must succeed: after a failed one any event but `Opened` leaves an empty list
      that the scheduler trusts, which is complete exactly when nothing is pending. */
  lemma {:induction false} FailedRefreshForgets(w: World, step: Step)
    requires Inv(w) && step.Start? && Enabled(w, step) && w.sched.list.Invalid? && !RefreshSucceeds(w, step)
    requires step.e != Opened && Opened !in w.inFlight
    ensures var w' := After(w, step);
            && Trusted(w'.sched) && w'.sched.active == []
            && (Complete(w') <==> w'.pending == {})
  {
    var w' := After(w, step);
    assert forall id :: !Listed(w'.sched, id);
  }

  /** Exactly when an event keeps the list complete: if the refresh it needed worked, or an `Opened`
      event forces another one, or there is nothing to list. */
  lemma {:induction false} EventKeepsCompleteIff(w: World, step: Step)
    requires Inv(w) && Complete(w) && step.Start? && Enabled(w, step)
    ensures Complete(After(w, step)) <==>
              || RefreshSucceeds(w, step)
              || step.e == Opened || Opened in w.inFlight
              || w.pending == {}
  {
    var w' := After(w, step);
    if RefreshSucceeds(w, step) {
      StartKeepsComplete(w, step);
    } else if step.e == Opened {
      assert !Trusted(w'.sched);
    } else if Opened in w.inFlight {
      assert Opened in w'.inFlight;
    } else {
      FailedRefreshForgets(w, step);
    }
  }
}
