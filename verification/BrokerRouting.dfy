/**
 What becomes of a send: dropped for good when its address is not connected as it is read, and otherwise
 on its way to the session connected there, queued to it once, or given up because it is gone. A
 session's writer takes what is queued in order, one frame a step.
 */
module BrokerRouting {
  import opened Wrappers
  import Broker
  import opened BrokerSessions

  /** `item` is the push of send number `k` of session `sid`. */
  predicate IsFrom(item: Item, sid: Sid, k: nat) {
    item.sender == sid && item.index == k
  }

  /** Send `k` of session `sid` was read, and neither stands in a queue nor is on its way. */
  ghost predicate Gone(s: State, sid: Sid, k: nat) {
    && sid in s.sessions && k < |s.sessions[sid].sends|
    && (forall j, m :: j in s.sessions && 0 <= m < |s.sessions[j].channel.items| ==> !IsFrom(s.sessions[j].channel.items[m], sid, k))
    && (forall j :: j in s.sessions && s.sessions[j].delivery.Some? ==> !IsFrom(s.sessions[j].delivery.value.item, sid, k))
  }

  /** The session is delivering exactly this. */
  ghost predicate OnWay(s: State, sid: Sid, d: Delivery) {
    sid in s.sessions && s.sessions[sid].delivery == Some(d)
  }

  /** The item stands in the session's queue. */
  ghost predicate Queued(s: State, target: Sid, item: Item) {
    target in s.sessions && item in s.sessions[target].channel.items
  }

  /** Send `k` of session `sid` stands in the queue of `target`, at one place, and nowhere else. */
  ghost predicate QueuedOnce(s: State, target: Sid, item: Item) {
    exists m :: StandsOnlyAt(s, target, m, item)
  }

  ghost predicate StandsOnlyAt(s: State, target: Sid, m: nat, item: Item) {
    && target in s.sessions && m < |s.sessions[target].channel.items| && s.sessions[target].channel.items[m] == item
    && forall j, n :: j in s.sessions && 0 <= n < |s.sessions[j].channel.items| && IsFrom(s.sessions[j].channel.items[n], item.sender, item.index) ==>
                        j == target && n == m
  }

  // ---------- one step ----------

  lemma {:induction false} GoneStays(s: State, step: Step, sid: Sid, k: nat)
    requires Gone(s, sid, k) && Enabled(s, step)
    ensures Gone(Next(s, step), sid, k)
  {
    var t := Next(s, step);
    forall j, m | j in t.sessions && 0 <= m < |t.sessions[j].channel.items| ensures !IsFrom(t.sessions[j].channel.items[m], sid, k) {
      QueueAfter(s, step, j);
      if m < |QueueOf(s, j)| { assert QueueOf(t, j)[m] == s.sessions[j].channel.items[m]; }
    }
    forall j | j in t.sessions && t.sessions[j].delivery.Some? ensures !IsFrom(t.sessions[j].delivery.value.item, sid, k) {
      if !(step.ReadSend? && step.sid == j) { DeliveryAfter(s, step, j); }
    }
  }

  lemma {:induction false} QueuedStays(s: State, step: Step, target: Sid, item: Item)
    requires Queued(s, target, item) && Enabled(s, step)
    ensures Queued(Next(s, step), target, item)
  {
    QueueAfter(s, step, target);
  }

  /** A delivery goes on until it arrives or, its target's channel being closed, is given up. */
  lemma {:induction false} OnWayNext(s: State, step: Step, sid: Sid, d: Delivery)
    requires OnWay(s, sid, d) && Enabled(s, step)
    ensures step == Deliver(sid) ==> Queued(Next(s, step), d.target, d.item)
    ensures step != Deliver(sid) && step != GiveUp(sid) ==> OnWay(Next(s, step), sid, d)
  {
    QueueAfter(s, step, d.target);
    if step == Deliver(sid) {
      var q := QueueOf(Next(s, step), d.target);
      assert q[|q| - 1] == d.item;
    }
  }

  lemma {:induction false} GivenUpIsGone(s: State, sid: Sid, d: Delivery)
    requires Holds(s) && OnWay(s, sid, d) && Enabled(s, GiveUp(sid))
    ensures Gone(Next(s, GiveUp(sid)), sid, d.item.index)
  {
    var t := Next(s, GiveUp(sid));
    assert DeliveryHolds(s, sid);
    forall j, m | j in t.sessions && 0 <= m < |t.sessions[j].channel.items| ensures !IsFrom(t.sessions[j].channel.items[m], sid, d.item.index) {
      QueueAfter(s, GiveUp(sid), j);
    }
    forall j | j in t.sessions && t.sessions[j].delivery.Some? ensures !IsFrom(t.sessions[j].delivery.value.item, sid, d.item.index) {
      DeliveryAfter(s, GiveUp(sid), j);
      assert DeliveryHolds(s, j);
    }
  }

  /** A send read while its address is not connected is dropped. */
  lemma {:induction false} UnroutedIsGone(s: State, sid: Sid, send: Send)
    requires Holds(s) && Enabled(s, ReadSend(sid, send)) && send.to !in s.peers
    ensures Gone(Next(s, ReadSend(sid, send)), sid, |s.sessions[sid].sends|)
  {
    var step := ReadSend(sid, send);
    var t, k := Next(s, step), |s.sessions[sid].sends|;
    forall j, m | j in t.sessions && 0 <= m < |t.sessions[j].channel.items| ensures !IsFrom(t.sessions[j].channel.items[m], sid, k) {
      QueueAfter(s, step, j);
      assert ItemHolds(s, s.sessions[j].address, s.sessions[j].channel.items[m]);
    }
    forall j | j in t.sessions && t.sessions[j].delivery.Some? ensures !IsFrom(t.sessions[j].delivery.value.item, sid, k) {
      DeliveryAfter(s, step, j);
      assert DeliveryHolds(s, j);
    }
  }

  // ---------- over a run ----------

  /** What the read of a send puts on its way: its push to the session registered for its address. */
  function Routed(s: State, sid: Sid, send: Send): Delivery
    requires sid in s.sessions && send.to in s.peers
  {
    Delivery(s.peers[send.to], Item(Push(send.id, s.sessions[sid].address, send.envelope), send.to, sid, |s.sessions[sid].sends|))
  }

  /** Some step between gave it up, when the channel it was for was closed. */
  ghost predicate GivenUp(states: seq<State>, steps: seq<Step>, from: nat, to: nat, sid: Sid, d: Delivery)
    requires to <= |steps| < |states|
  {
    exists j :: from < j < to && steps[j] == GiveUp(sid) && GivesUp(states[j], sid, d)
  }

  ghost predicate GivesUp(s: State, sid: Sid, d: Delivery) {
    OnWay(s, sid, d) && d.target in s.sessions && s.sessions[d.target].channel.closed
  }

  lemma {:induction false} QueuedIsOnce(states: seq<State>, steps: seq<Step>, i: nat, target: Sid, item: Item)
    requires IsRun(states, steps) && i < |states| && Queued(states[i], target, item)
    ensures QueuedOnce(states[i], target, item)
  {
    var s := states[i];
    var m :| 0 <= m < |s.sessions[target].channel.items| && s.sessions[target].channel.items[m] == item;
    forall j, n | j in s.sessions && 0 <= n < |s.sessions[j].channel.items| && IsFrom(s.sessions[j].channel.items[n], item.sender, item.index)
      ensures j == target && n == m
    {
      EachSendPushedAtMostOnce(states, steps, i, j, target, n, m);
    }
    assert StandsOnlyAt(s, target, m, item);
  }

  lemma {:induction false} StepOf(states: seq<State>, steps: seq<Step>, i: nat)
    requires IsRun(states, steps) && i < |steps|
    ensures Enabled(states[i], steps[i]) && states[i + 1] == Next(states[i], steps[i])
  {
    assert StepTaken(states, steps, i);
  }

  lemma {:induction false} GoneNext(states: seq<State>, steps: seq<Step>, i: nat, sid: Sid, k: nat)
    requires IsRun(states, steps) && i < |steps| && Gone(states[i], sid, k)
    ensures Gone(states[i + 1], sid, k)
  {
    StepOf(states, steps, i);
    GoneStays(states[i], steps[i], sid, k);
  }

  lemma {:induction false} GoneForever(states: seq<State>, steps: seq<Step>, from: nat, i: nat, sid: Sid, k: nat)
    requires IsRun(states, steps) && from <= i <= |steps| && Gone(states[from], sid, k)
    ensures Gone(states[i], sid, k)
  {
    if from < i {
      GoneForever(states, steps, from, i - 1, sid, k);
      GoneNext(states, steps, i - 1, sid, k);
    }
  }

  /** Over every run: a send whose address is not connected when it is read is never queued to anyone. */
  lemma {:induction false} UnroutedSendIsDropped(states: seq<State>, steps: seq<Step>, n: nat, sid: Sid, send: Send, i: nat)
    requires IsRun(states, steps) && n < i <= |steps| && steps[n] == ReadSend(sid, send)
    requires sid in states[n].sessions && send.to !in states[n].peers
    ensures Gone(states[i], sid, |states[n].sessions[sid].sends|)
  {
    RunsHold(states, steps, n);
    StepOf(states, steps, n);
    UnroutedIsGone(states[n], sid, send);
    GoneForever(states, steps, n + 1, i, sid, |states[n].sessions[sid].sends|);
  }

  /** What became of a delivery started by step `n`, at state `i`. */
  ghost predicate Fate(states: seq<State>, steps: seq<Step>, n: nat, i: nat, sid: Sid, d: Delivery)
    requires i <= |steps| < |states|
  {
    || OnWay(states[i], sid, d)
    || Queued(states[i], d.target, d.item)
    || (GivenUp(states, steps, n, i, sid, d) && Gone(states[i], sid, d.item.index))
  }

  lemma {:induction false} FateNext(states: seq<State>, steps: seq<Step>, n: nat, i: nat, sid: Sid, d: Delivery)
    requires IsRun(states, steps) && n < i < |steps| && Holds(states[i]) && Fate(states, steps, n, i, sid, d)
    ensures Fate(states, steps, n, i + 1, sid, d)
  {
    var s, step := states[i], steps[i];
    StepOf(states, steps, i);
    if Queued(s, d.target, d.item) {
      QueuedStays(s, step, d.target, d.item);
    } else if OnWay(s, sid, d) {
      OnWayNext(s, step, sid, d);
      if step == GiveUp(sid) {
        GivenUpIsGone(s, sid, d);
        assert GivesUp(states[i], sid, d);
      }
    } else {
      GoneStays(s, step, sid, d.item.index);
    }
  }

  lemma {:induction false} ReadPutsOnWay(s: State, sid: Sid, send: Send)
    requires Enabled(s, ReadSend(sid, send)) && send.to in s.peers
    ensures OnWay(Next(s, ReadSend(sid, send)), sid, Routed(s, sid, send))
  {
  }

  lemma {:induction false} FateFrom(states: seq<State>, steps: seq<Step>, n: nat, i: nat, sid: Sid, d: Delivery)
    requires IsRun(states, steps) && n < i <= |steps| && OnWay(states[n + 1], sid, d)
    ensures Fate(states, steps, n, i, sid, d)
  {
    if i > n + 1 {
      FateFrom(states, steps, n, i - 1, sid, d);
      RunsHold(states, steps, i - 1);
      FateNext(states, steps, n, i - 1, sid, d);
    }
  }

  lemma {:induction false} FateOf(states: seq<State>, steps: seq<Step>, n: nat, sid: Sid, send: Send, i: nat)
    requires IsRun(states, steps) && n < i <= |steps| && steps[n] == ReadSend(sid, send)
    requires sid in states[n].sessions && send.to in states[n].peers
    ensures Fate(states, steps, n, i, sid, Routed(states[n], sid, send))
  {
    StepOf(states, steps, n);
    ReadPutsOnWay(states[n], sid, send);
    FateFrom(states, steps, n, i, sid, Routed(states[n], sid, send));
  }

  /**
   Over every run: a send whose address is connected when it is read is, ever after, on its way to the
   session registered there at that moment, or queued to that session once and to no other, or was given
   up when that session's channel was closed, and is then nowhere.
   */
  lemma {:induction false} RoutedSendArrives(states: seq<State>, steps: seq<Step>, n: nat, sid: Sid, send: Send, i: nat)
    requires IsRun(states, steps) && n < i <= |steps| && steps[n] == ReadSend(sid, send)
    requires sid in states[n].sessions && send.to in states[n].peers
    ensures var k, target := |states[n].sessions[sid].sends|, states[n].peers[send.to];
            var item := Item(Push(send.id, states[n].sessions[sid].address, send.envelope), send.to, sid, k);
            || OnWay(states[i], sid, Delivery(target, item))
            || QueuedOnce(states[i], target, item)
            || (GivenUp(states, steps, n, i, sid, Delivery(target, item)) && Gone(states[i], sid, k))
  {
    var d := Routed(states[n], sid, send);
    FateOf(states, steps, n, sid, send, i);
    if Queued(states[i], d.target, d.item) { QueuedIsOnce(states, steps, i, d.target, d.item); }
  }

  // ---------- the writers ----------

  /** The frames the session's writer handed to the socket up to state `i`; the last may have failed. */
  ghost function Written(states: seq<State>, steps: seq<Step>, i: nat, sid: Sid): seq<Item>
    requires i <= |steps| < |states|
  {
    if i == 0 then []
    else
      var before := Written(states, steps, i - 1, sid);
      var s := states[i - 1];
      if (steps[i - 1] == WriteOne(sid) || steps[i - 1] == WriteFails(sid)) && sid in s.sessions
         && s.sessions[sid].channel.taken < |s.sessions[sid].channel.items|
      then before + [s.sessions[sid].channel.items[s.sessions[sid].channel.taken]]
      else before
  }

  lemma {:induction false} TakenAfter(s: State, step: Step, sid: Sid)
    requires Enabled(s, step) && sid in Next(s, step).sessions
    ensures var t := Next(s, step).sessions[sid].channel.taken;
            if sid !in s.sessions then t == 0
            else if step == WriteOne(sid) || step == WriteFails(sid) then t == s.sessions[sid].channel.taken + 1
            else t == s.sessions[sid].channel.taken
  {
  }

  lemma {:induction false} SessionsStay(s: State, step: Step, sid: Sid)
    requires Enabled(s, step) && sid in s.sessions
    ensures sid in Next(s, step).sessions
  {
  }

  lemma {:induction false} NothingWritten(states: seq<State>, steps: seq<Step>, i: nat, sid: Sid)
    requires IsRun(states, steps) && i <= |steps| && sid !in states[i].sessions
    ensures Written(states, steps, i, sid) == []
  {
    if i > 0 {
      StepOf(states, steps, i - 1);
      if sid in states[i - 1].sessions { SessionsStay(states[i - 1], steps[i - 1], sid); }
      NothingWritten(states, steps, i - 1, sid);
    }
  }

  lemma {:induction false} OneMoreTaken<T>(before: seq<T>, after: seq<T>, n: nat)
    requires before <= after && n < |before|
    ensures after[..n + 1] == before[..n] + [before[n]]
  {
  }

  /** Over every run: a writer hands over what was queued to its session, in order, each frame once. */
  lemma {:induction false} WritersKeepOrder(states: seq<State>, steps: seq<Step>, i: nat, sid: Sid)
    requires IsRun(states, steps) && i <= |steps| && sid in states[i].sessions
    ensures states[i].sessions[sid].channel.taken <= |states[i].sessions[sid].channel.items|
    ensures Written(states, steps, i, sid) == states[i].sessions[sid].channel.items[..states[i].sessions[sid].channel.taken]
  {
    TakenAtMost(states, steps, i);
    if i > 0 {
      var s, step := states[i - 1], steps[i - 1];
      StepOf(states, steps, i - 1);
      TakenAfter(s, step, sid);
      QueueAfter(s, step, sid);
      TakenAtMost(states, steps, i - 1);
      if sid in s.sessions {
        WritersKeepOrder(states, steps, i - 1, sid);
        var n := s.sessions[sid].channel.taken;
        if n < |QueueOf(s, sid)| { OneMoreTaken(QueueOf(s, sid), QueueOf(states[i], sid), n); }
        assert QueueOf(states[i], sid)[..n] == QueueOf(s, sid)[..n];
      } else {
        NothingWritten(states, steps, i - 1, sid);
      }
    }
  }

  // ---------- what can happen ----------

  /** Some continuation leads from here to a state in which this session's writer has handed over the item. */
  ghost predicate CanBeWritten(s: State, sid: Sid, item: Item) {
    exists states, steps :: IsRunFrom(s, states, steps) && HandedOver(states[|steps|], sid, item)
  }

  ghost predicate HandedOver(s: State, sid: Sid, item: Item) {
    exists m: nat :: IsTaken(s, sid, m) && s.sessions[sid].channel.items[m] == item
  }

  /** Item `m` of the session's queue was taken by its writer. */
  ghost predicate IsTaken(s: State, sid: Sid, m: nat) {
    sid in s.sessions && m < s.sessions[sid].channel.taken && m < |s.sessions[sid].channel.items|
  }

  lemma {:induction false} StepFirst(s: State, step: Step, sid: Sid, item: Item)
    requires Enabled(s, step) && CanBeWritten(Next(s, step), sid, item)
    ensures CanBeWritten(s, sid, item)
  {
    var states, steps :| IsRunFrom(Next(s, step), states, steps) && HandedOver(states[|steps|], sid, item);
    RunCons(s, step, states, steps);
    assert HandedOver(([s] + states)[|[step] + steps|], sid, item);
  }

  /** The writer of an open channel can work off its queue. */
  lemma {:induction false} QueuedCanBeWritten(s: State, sid: Sid, m: nat)
    requires sid in s.sessions && !s.sessions[sid].channel.closed && m < |s.sessions[sid].channel.items|
    ensures CanBeWritten(s, sid, s.sessions[sid].channel.items[m])
    decreases m - s.sessions[sid].channel.taken
  {
    var item := s.sessions[sid].channel.items[m];
    if m < s.sessions[sid].channel.taken {
      assert IsTaken(s, sid, m);
      assert IsRunFrom(s, [s], []) && HandedOver([s][0], sid, item);
    } else {
      QueuedCanBeWritten(Next(s, WriteOne(sid)), sid, m);
      StepFirst(s, WriteOne(sid), sid, item);
    }
  }

  /** A push on its way to an open channel arrives, at the latest once the writer has made room. */
  lemma {:induction false} OnWayCanBeWritten(s: State, sid: Sid, d: Delivery)
    requires OnWay(s, sid, d) && d.target in s.sessions && !s.sessions[d.target].channel.closed && NotOvertaken(s)
    requires |s.sessions[d.target].channel.items| <= s.sessions[d.target].channel.taken + PEER_BUF
    ensures CanBeWritten(s, d.target, d.item)
  {
    if HasRoom(s.sessions[d.target].channel) {
      var t := Next(s, Deliver(sid));
      QueuedCanBeWritten(t, d.target, |s.sessions[d.target].channel.items|);
      StepFirst(s, Deliver(sid), d.target, d.item);
    } else {
      var t := Next(s, WriteOne(d.target));
      var u := Next(t, Deliver(sid));
      QueuedCanBeWritten(u, d.target, |s.sessions[d.target].channel.items|);
      StepFirst(t, Deliver(sid), d.target, d.item);
      StepFirst(s, WriteOne(d.target), d.target, d.item);
    }
  }

  /** No channel holds more than its bound. */
  ghost predicate Bounded(s: State) {
    forall i :: i in s.sessions ==> |s.sessions[i].channel.items| <= s.sessions[i].channel.taken + PEER_BUF
  }

  lemma {:induction false} BoundedKept(s: State, step: Step)
    requires Bounded(s) && Enabled(s, step)
    ensures Bounded(Next(s, step))
  {
  }

  /** Over every run, the frames queued to a session and not yet taken are at most as many as its channel holds. */
  lemma {:induction false} ChannelsAreBounded(states: seq<State>, steps: seq<Step>, i: nat)
    requires IsRun(states, steps) && i < |states|
    ensures Bounded(states[i])
  {
    if i > 0 {
      ChannelsAreBounded(states, steps, i - 1);
      StepOf(states, steps, i - 1);
      BoundedKept(states[i - 1], steps[i - 1]);
    }
  }

  /**
   In every run: a session that is open and between frames can send, and what it sends to a connected
   address whose channel is open can get to the socket there, stamped with the session's address.
   */
  lemma {:induction false} SendCanGetThrough(states: seq<State>, steps: seq<Step>, i: nat, sid: Sid, send: Send)
    requires IsRun(states, steps) && i < |states|
    requires var s := states[i];
             && IsOpen(s, sid) && s.sessions[sid].delivery.None?
             && send.to in s.peers && s.peers[send.to] in s.sessions && !s.sessions[s.peers[send.to]].channel.closed
    ensures var s := states[i];
            CanBeWritten(s, s.peers[send.to], Item(Push(send.id, s.sessions[sid].address, send.envelope), send.to, sid, |s.sessions[sid].sends|))
  {
    var s, step := states[i], ReadSend(sid, send);
    var t := Next(s, step);
    ChannelsAreBounded(states, steps, i);
    TakenAtMost(states, steps, i);
    BoundedKept(s, step);
    NotOvertakenKept(s, step);
    ReadPutsOnWay(s, sid, send);
    OnWayCanBeWritten(t, sid, Routed(s, sid, send));
    StepFirst(s, step, s.peers[send.to], Routed(s, sid, send).item);
  }

  /** In any state, an enrolled address can connect: a new session of it can say hello, attach and be registered. */
  lemma {:induction false} EnrolledCanConnect(s: State, sid: Sid, mesh: Broker.MeshId, address: Broker.Address)
    requires Broker.Lookup(s.members, mesh, address).Some? && sid !in s.sessions
    ensures Enabled(s, Hello(sid, mesh, address)) && Enabled(Next(s, Hello(sid, mesh, address)), Attach(sid))
    ensures var t := Next(Next(s, Hello(sid, mesh, address)), Attach(sid));
            && IsOpen(t, sid) && Registered(t, sid) && !t.sessions[sid].channel.closed && t.sessions[sid].delivery.None?
            && t.sessions[sid].address == address && forall a :: a in s.peers && a != address ==> a in t.peers && t.peers[a] == s.peers[a]
  {
  }
}
