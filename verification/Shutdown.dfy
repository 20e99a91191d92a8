/**
 The shutdown signal: a flag for listeners created later, next to a broadcast channel for those
 already listening. Both `send` and `subscribe` take two separate steps, which may interleave
 across any number of senders and receivers.
 */
module Shutdown {
  // A receiver between the two steps of `subscribe`, ready to receive, or done with its first `recv`.
  // `position` counts the messages published before it subscribed.
  datatype Receiver = Subscribed(position: nat) | Ready(position: nat, receivedShutdown: bool) | Received

  datatype Sender = FlagSet | Sent

  // `published`: how many messages the channel has carried.
  datatype State = State(flag: bool, published: nat, senders: map<nat, Sender>, receivers: map<nat, Receiver>)

  datatype Step =
    | SetFlag(s: nat)
    | Publish(s: nat)
    | Subscribe(r: nat)
    | ReadFlag(r: nat)
    | Recv(r: nat)
    | Drop(r: nat)

  /** The first `recv` of a receiver returns: it saw the flag, or a message is waiting (or it lags
      behind, which also returns). */
  predicate RecvReturns(st: State, r: nat)
    requires r in st.receivers
  {
    match st.receivers[r]
    case Ready(position, received) => received || position < st.published
    case _ => false
  }

  predicate Enabled(st: State, step: Step) {
    match step
    case SetFlag(s) => s !in st.senders
    case Publish(s) => s in st.senders && st.senders[s] == FlagSet
    case Subscribe(r) => r !in st.receivers
    case ReadFlag(r) => r in st.receivers && st.receivers[r].Subscribed?
    case Recv(r) => r in st.receivers && RecvReturns(st, r)
    case Drop(r) => r in st.receivers
  }

  function After(st: State, step: Step): State {
    match step
    case SetFlag(s) => st.(flag := true, senders := st.senders[s := FlagSet])
    case Publish(s) =>
      // the channel refuses a message that nobody could receive
      st.(published := if st.receivers == map[] then st.published else st.published + 1,
          senders := st.senders[s := Sent])
    case Subscribe(r) => st.(receivers := st.receivers[r := Subscribed(st.published)])
    case ReadFlag(r) =>
      if r in st.receivers && st.receivers[r].Subscribed?
      then st.(receivers := st.receivers[r := Ready(st.receivers[r].position, st.flag)]) else st
    case Recv(r) => st.(receivers := st.receivers[r := Received])
    case Drop(r) => st.(receivers := st.receivers - {r})
  }

  /** Once a send has completed, nobody who subscribed before it has missed its message, and
      everybody who subscribes later finds the flag set. */
  ghost predicate Inv(st: State) {
    && (st.senders != map[] <==> st.flag)
    && (st.published > 0 ==> st.flag)
    && (forall r :: r in st.receivers && st.receivers[r].Ready? && st.receivers[r].receivedShutdown ==> st.flag)
    && (forall r :: r in st.receivers ==>
          match st.receivers[r]
          case Subscribed(position) => position <= st.published
          case Ready(position, received) =>
            position <= st.published && (Completed(st) ==> received || position < st.published)
          case Received => true)
  }

  /** Every receiver whose subscription has completed has its first `recv` return. */
  ghost predicate AllReturn(st: State) {
    forall r :: r in st.receivers && st.receivers[r].Ready? ==> RecvReturns(st, r)
  }

  ghost predicate Completed(st: State) {
    exists s :: s in st.senders && st.senders[s] == Sent
  }

  lemma {:induction false} StepKeepsInv(st: State, step: Step)
    requires Inv(st) && Enabled(st, step)
    ensures Inv(After(st, step))
  {
    var st' := After(st, step);
    match step
    case SetFlag(s) =>
      if Completed(st') {
        var x :| x in st'.senders && st'.senders[x] == Sent;
        assert x in st.senders;
      }
    case Publish(s) =>
    case Subscribe(r) =>
    case ReadFlag(r) =>
      if Completed(st') {
        var x :| x in st'.senders && st'.senders[x] == Sent;
        assert x in st.senders;
      }
    case Recv(r) =>
    case Drop(r) =>
  }

  ghost predicate ValidRun(st: State, steps: seq<Step>)
    decreases |steps|
  {
    steps == [] || (Enabled(st, steps[0]) && ValidRun(After(st, steps[0]), steps[1..]))
  }

  function Final(st: State, steps: seq<Step>): State
    decreases |steps|
  {
    if steps == [] then st else Final(After(st, steps[0]), steps[1..])
  }

  /** Main result: in every interleaving, once any send has completed, every receiver whose
      subscription has completed has its first `recv` return; and no `recv` returns before a send has
      begun. */
  lemma {:induction false} ShutdownReachesEveryone(st: State, steps: seq<Step>)
    requires Inv(st) && ValidRun(st, steps)
    ensures var st' := Final(st, steps);
            && Inv(st')
            && (Completed(st') ==> AllReturn(st'))
            && (forall r :: r in st'.receivers && RecvReturns(st', r) ==> st'.senders != map[])
    decreases |steps|
  {
    if steps != [] {
      StepKeepsInv(st, steps[0]);
      ShutdownReachesEveryone(After(st, steps[0]), steps[1..]);
    }
  }

  /** The shared object. A whole `send` or `subscribe` takes its two steps in a row, and keeps the
      promise on its own: after a send everybody listening returns, and so does a late listener. */
  class ShutdownSender {
    var sentShutdown: bool
    var published: nat
    ghost var senders: map<nat, Sender>
    var receivers: map<nat, Receiver>

    constructor ()
      ensures Value() == State(false, 0, map[], map[])
    {
      sentShutdown, published, senders, receivers := false, 0, map[], map[];
    }

    ghost function Value(): State
      reads this
    {
      State(sentShutdown, published, senders, receivers)
    }

    method Send(ghost s: nat) returns (reached: nat)
      requires Inv(Value()) && Enabled(Value(), SetFlag(s))
      modifies this
      ensures Inv(Value()) && AllReturn(Value())
      ensures Value() == After(After(old(Value()), SetFlag(s)), Publish(s))
      ensures reached == |old(receivers)|
    {
      StepKeepsInv(Value(), SetFlag(s));
      StepKeepsInv(After(Value(), SetFlag(s)), Publish(s));
      sentShutdown := true;
      senders := senders[s := FlagSet];
      reached := |receivers|;
      if reached > 0 {
        published := published + 1;
      }
      senders := senders[s := Sent];
      assert Value().senders[s] == Sent;
    }

    method SubscribeReceiver(r: nat)
      requires Inv(Value()) && Enabled(Value(), Subscribe(r))
      modifies this
      ensures Inv(Value()) && r in receivers && (old(Completed(Value())) ==> RecvReturns(Value(), r))
      ensures Value() == After(After(old(Value()), Subscribe(r)), ReadFlag(r))
    {
      StepKeepsInv(Value(), Subscribe(r));
      StepKeepsInv(After(Value(), Subscribe(r)), ReadFlag(r));
      receivers := receivers[r := Subscribed(published)];
      var sent := sentShutdown;
      receivers := receivers[r := Ready(receivers[r].position, sent)];
    }
  }

  lemma {:induction false} InitialIsGood()
    ensures Inv(State(false, 0, map[], map[]))
  {
  }
}
