/**
 Broker sessions as interleaved steps. Whatever the interleaving, a frame queued to a session is the
 push of exactly one send addressed to it, stamped with the sender's verified, enrolled address; a
 send is pushed at most once; and pushes between two sessions keep their order.
 */
module BrokerSessions {
  import opened Wrappers
  import opened Broker

  const PEER_BUF: nat := 128

  type Sid = nat

  datatype Send = Send(to: Address, id: string, envelope: string)

  datatype Push = Push(id: string, from: Address, envelope: string)

  /** A queued push, with the session and the position of the send it came from. */
  datatype Item = Item(push: Push, to: Address, sender: Sid, index: nat)

  /** A session's channel: everything ever queued, how much its writer took, and whether the writer is gone. */
  datatype Channel = Channel(items: seq<Item>, taken: nat, closed: bool)

  /** A push on its way: the sender waits until the target's channel has room or is gone. */
  datatype Delivery = Delivery(target: Sid, item: Item)

  datatype Phase = Greeted | Open | Ended

  datatype Session = Session(mesh: MeshId, address: Address, phase: Phase, sends: seq<Send>, delivery: Option<Delivery>, channel: Channel)

  datatype State = State(members: Members, peers: map<Address, Sid>, sessions: map<Sid, Session>)

  datatype Step =
    | Enroll(mesh: MeshId, address: Address, name: Option<string>, newId: string)
    /** A hello whose signature and freshness were checked. */
    | Hello(sid: Sid, mesh: MeshId, address: Address)
    | Attach(sid: Sid)
    | ReadSend(sid: Sid, send: Send)
    | Deliver(sid: Sid)
    | GiveUp(sid: Sid)
    | WriteOne(sid: Sid)
    /** The socket refuses a frame: the writer gives up. */
    | WriteFails(sid: Sid)
    /** The writer finds its channel empty with no sender left. */
    | WriterDrained(sid: Sid)
    | EndRead(sid: Sid)

  predicate HasRoom(c: Channel) { !c.closed && |c.items| < c.taken + PEER_BUF }

  /** Some push on its way is for this session. */
  ghost predicate OnItsWay(s: State, sid: Sid) {
    exists i :: i in s.sessions && s.sessions[i].delivery.Some? && s.sessions[i].delivery.value.target == sid
  }

  /**
   Senders of a session's channel: the clone that is registered, those of pushes on their way, and the
   session's own, which stays in scope until its task ends, and the task waits for the writer.
   */
  ghost predicate HasSender(s: State, sid: Sid)
    requires sid in s.sessions
  {
    || s.sessions[sid].phase.Open? || (s.sessions[sid].phase.Ended? && !s.sessions[sid].channel.closed)
    || (exists a :: a in s.peers && s.peers[a] == sid)
    || OnItsWay(s, sid)
  }

  ghost predicate Enabled(s: State, step: Step) {
    match step
    case Enroll(_, _, _, _) => true
    case Hello(sid, mesh, address) => sid !in s.sessions && Lookup(s.members, mesh, address).Some?
    case Attach(sid) => sid in s.sessions && s.sessions[sid].phase.Greeted?
    case ReadSend(sid, _) => sid in s.sessions && s.sessions[sid].phase.Open? && s.sessions[sid].delivery.None?
    case Deliver(sid) =>
      && sid in s.sessions && s.sessions[sid].delivery.Some?
      && s.sessions[sid].delivery.value.target in s.sessions
      && HasRoom(s.sessions[s.sessions[sid].delivery.value.target].channel)
    case GiveUp(sid) =>
      && sid in s.sessions && s.sessions[sid].delivery.Some?
      && s.sessions[sid].delivery.value.target in s.sessions
      && s.sessions[s.sessions[sid].delivery.value.target].channel.closed
    case WriteOne(sid) => sid in s.sessions && !s.sessions[sid].channel.closed && s.sessions[sid].channel.taken < |s.sessions[sid].channel.items|
    case WriteFails(sid) => sid in s.sessions && !s.sessions[sid].channel.closed && s.sessions[sid].channel.taken < |s.sessions[sid].channel.items|
    case WriterDrained(sid) =>
      && sid in s.sessions && !s.sessions[sid].phase.Greeted? && !s.sessions[sid].channel.closed
      && s.sessions[sid].channel.taken == |s.sessions[sid].channel.items| && !HasSender(s, sid)
    case EndRead(sid) => sid in s.sessions && s.sessions[sid].phase.Open? && s.sessions[sid].delivery.None?
  }

  function Put(s: State, sid: Sid, session: Session): State {
    s.(sessions := s.sessions[sid := session])
  }

  function Next(s: State, step: Step): State
    requires Enabled(s, step)
  {
    match step
    case Enroll(mesh, address, name, newId) => s.(members := Enrolled(s.members, mesh, address, name, newId))
    case Hello(sid, mesh, address) => Put(s, sid, Session(mesh, address, Greeted, [], None, Channel([], 0, false)))
    case Attach(sid) =>
      var me := s.sessions[sid];
      Put(s, sid, me.(phase := Open)).(peers := s.peers[me.address := sid])
    case ReadSend(sid, send) =>
      var me := s.sessions[sid];
      var delivery :=
        if send.to in s.peers
        then Some(Delivery(s.peers[send.to], Item(Push(send.id, me.address, send.envelope), send.to, sid, |me.sends|)))
        else None; // offline recipient: dropped
      Put(s, sid, me.(sends := me.sends + [send], delivery := delivery))
    case Deliver(sid) =>
      var d := s.sessions[sid].delivery.value;
      var t := Put(s, sid, s.sessions[sid].(delivery := None));
      var target := t.sessions[d.target];
      Put(t, d.target, target.(channel := target.channel.(items := target.channel.items + [d.item])))
    case GiveUp(sid) => Put(s, sid, s.sessions[sid].(delivery := None))
    case WriteOne(sid) =>
      var c := s.sessions[sid].channel;
      Put(s, sid, s.sessions[sid].(channel := c.(taken := c.taken + 1)))
    case WriteFails(sid) =>
      var c := s.sessions[sid].channel;
      Put(s, sid, s.sessions[sid].(channel := c.(taken := c.taken + 1, closed := true)))
    case WriterDrained(sid) => Put(s, sid, s.sessions[sid].(channel := s.sessions[sid].channel.(closed := true)))
    case EndRead(sid) =>
      var me := s.sessions[sid];
      Put(s, sid, me.(phase := Ended)).(peers := s.peers - {me.address})
  }

  const Empty: State := State(map[], map[], map[])

  /** Step `i` was enabled where it was taken, and led to the next state. */
  ghost predicate StepTaken(states: seq<State>, steps: seq<Step>, i: nat)
    requires i < |steps| < |states|
  {
    Enabled(states[i], steps[i]) && states[i + 1] == Next(states[i], steps[i])
  }

  /** States from `start` on, each reached from the one before by an enabled step. */
  ghost predicate IsRunFrom(start: State, states: seq<State>, steps: seq<Step>) {
    && |states| == |steps| + 1 && states[0] == start
    && forall i :: 0 <= i < |steps| ==> StepTaken(states, steps, i)
  }

  /** A run of the broker. */
  ghost predicate IsRun(states: seq<State>, steps: seq<Step>) {
    IsRunFrom(Empty, states, steps)
  }

  // ---------- invariants ----------

  /** Sessions passed hello with an address that is enrolled, and peers point at such sessions. */
  ghost predicate PeersEnrolled(s: State) {
    && (forall i :: i in s.sessions ==> Lookup(s.members, s.sessions[i].mesh, s.sessions[i].address).Some?)
    && (forall a :: a in s.peers ==> s.peers[a] in s.sessions && s.sessions[s.peers[a]].address == a)
  }

  /** The item is the push of the send it names, addressed to `address` and stamped with its sender. */
  ghost predicate ItemHolds(s: State, address: Address, item: Item) {
    && item.to == address
    && item.sender in s.sessions
    && item.index < |s.sessions[item.sender].sends|
    && s.sessions[item.sender].sends[item.index] == Send(item.to, item.push.id, item.push.envelope)
    && item.push.from == s.sessions[item.sender].address
  }

  ghost predicate QueuesHold(s: State) {
    forall i, n :: i in s.sessions && 0 <= n < |s.sessions[i].channel.items| ==>
                     ItemHolds(s, s.sessions[i].address, s.sessions[i].channel.items[n])
  }

  /** What session `i` is about to deliver is the push of the send it read last. */
  ghost predicate DeliveryHolds(s: State, i: Sid)
    requires i in s.sessions
  {
    s.sessions[i].delivery.Some? ==>
      var d := s.sessions[i].delivery.value;
      && d.target in s.sessions
      && ItemHolds(s, s.sessions[d.target].address, d.item)
      && d.item.sender == i && d.item.index == |s.sessions[i].sends| - 1
  }

  ghost predicate DeliveriesHold(s: State) {
    forall i :: i in s.sessions ==> DeliveryHolds(s, i)
  }

  /** A send still on its way is in no queue. */
  ghost predicate OnTheWayOnly(s: State) {
    forall i, j, n :: i in s.sessions && s.sessions[i].delivery.Some? && j in s.sessions && 0 <= n < |s.sessions[j].channel.items|
                      && s.sessions[j].channel.items[n].sender == i ==>
                        s.sessions[j].channel.items[n].index < |s.sessions[i].sends| - 1
  }

  /** Within a queue, the items of one sender stand in the order it sent them. */
  ghost predicate InOrder(s: State) {
    forall j, m, n :: j in s.sessions && 0 <= m < n < |s.sessions[j].channel.items|
                      && s.sessions[j].channel.items[m].sender == s.sessions[j].channel.items[n].sender ==>
                        s.sessions[j].channel.items[m].index < s.sessions[j].channel.items[n].index
  }

  /** No send is queued to two sessions. */
  ghost predicate OneQueuePerSend(s: State) {
    forall i, j, m, n ::
      (i in s.sessions && j in s.sessions && 0 <= m < |s.sessions[i].channel.items| && 0 <= n < |s.sessions[j].channel.items|
       && s.sessions[i].channel.items[m].sender == s.sessions[j].channel.items[n].sender
       && s.sessions[i].channel.items[m].index == s.sessions[j].channel.items[n].index)
      ==> i == j
  }

  ghost predicate Holds(s: State) {
    PeersEnrolled(s) && QueuesHold(s) && DeliveriesHold(s) && OnTheWayOnly(s) && InOrder(s) && OneQueuePerSend(s)
  }

  /** What steps never take back: sessions, their addresses and meshes, what they sent, and enrollment. */
  ghost predicate Grows(s: State, t: State) {
    && (forall i :: i in s.sessions ==>
                      && i in t.sessions && t.sessions[i].address == s.sessions[i].address && t.sessions[i].mesh == s.sessions[i].mesh
                      && s.sessions[i].sends <= t.sessions[i].sends)
    && (forall m, a :: Lookup(s.members, m, a).Some? ==> Lookup(t.members, m, a).Some?)
  }

  lemma {:induction false} StepGrows(s: State, step: Step)
    requires Enabled(s, step)
    ensures Grows(s, Next(s, step))
  {
    if step.Enroll? { EnrollKeeps(s.members, step.mesh, step.address, step.name, step.newId); }
  }

  lemma {:induction false} ItemOutlives(s: State, t: State, address: Address, item: Item)
    requires ItemHolds(s, address, item) && Grows(s, t)
    ensures ItemHolds(t, address, item)
  {
  }

  lemma {:induction false} PeersKept(s: State, step: Step)
    requires PeersEnrolled(s) && Enabled(s, step)
    ensures PeersEnrolled(Next(s, step))
  {
    StepGrows(s, step);
  }

  /** The queue of a session after a step: unchanged, or, on a delivery to it, one item longer. */
  function QueueOf(s: State, j: Sid): seq<Item> {
    if j in s.sessions then s.sessions[j].channel.items else []
  }

  lemma {:induction false} QueueAfter(s: State, step: Step, j: Sid)
    requires Enabled(s, step)
    ensures QueueOf(Next(s, step), j) ==
            if step.Deliver? && s.sessions[step.sid].delivery.value.target == j
            then QueueOf(s, j) + [s.sessions[step.sid].delivery.value.item]
            else QueueOf(s, j)
    ensures j in Next(s, step).sessions && j !in s.sessions ==> QueueOf(Next(s, step), j) == []
  {
  }

  lemma {:induction false} QueuesKept(s: State, step: Step)
    requires QueuesHold(s) && DeliveriesHold(s) && Enabled(s, step)
    ensures QueuesHold(Next(s, step))
  {
    var t := Next(s, step);
    StepGrows(s, step);
    forall j, n | j in t.sessions && 0 <= n < |t.sessions[j].channel.items|
      ensures ItemHolds(t, t.sessions[j].address, t.sessions[j].channel.items[n])
    {
      QueueAfter(s, step, j);
      if n < |QueueOf(s, j)| {
        ItemOutlives(s, t, s.sessions[j].address, QueueOf(s, j)[n]);
      } else {
        assert DeliveryHolds(s, step.sid);
        ItemOutlives(s, t, s.sessions[j].address, s.sessions[step.sid].delivery.value.item);
      }
    }
  }

  /** A session that reads no send keeps its delivery, or has completed it. */
  lemma {:induction false} DeliveryAfter(s: State, step: Step, i: Sid)
    requires Enabled(s, step) && i in Next(s, step).sessions && !(step.ReadSend? && step.sid == i)
    ensures var d := Next(s, step).sessions[i].delivery;
            d.Some? ==> i in s.sessions && d == s.sessions[i].delivery && Next(s, step).sessions[i].sends == s.sessions[i].sends
  {
  }

  lemma {:induction false} DeliveryKept(s: State, step: Step, i: Sid)
    requires DeliveriesHold(s) && Enabled(s, step) && i in Next(s, step).sessions && !(step.ReadSend? && step.sid == i)
    ensures DeliveryHolds(Next(s, step), i)
  {
    var t := Next(s, step);
    DeliveryAfter(s, step, i);
    StepGrows(s, step);
    if t.sessions[i].delivery.Some? {
      var d := t.sessions[i].delivery.value;
      assert DeliveryHolds(s, i);
      ItemOutlives(s, t, s.sessions[d.target].address, d.item);
    }
  }

  lemma {:induction false} ReadHolds(s: State, step: Step)
    requires PeersEnrolled(s) && Enabled(s, step) && step.ReadSend?
    ensures DeliveryHolds(Next(s, step), step.sid)
  {
    var t, me := Next(s, step), s.sessions[step.sid];
    assert t.sessions[step.sid].sends == me.sends + [step.send];
    if step.send.to in s.peers {
      assert s.peers[step.send.to] in s.sessions && s.sessions[s.peers[step.send.to]].address == step.send.to;
    }
  }

  lemma {:induction false} DeliveriesKept(s: State, step: Step)
    requires PeersEnrolled(s) && DeliveriesHold(s) && Enabled(s, step)
    ensures DeliveriesHold(Next(s, step))
  {
    forall i | i in Next(s, step).sessions ensures DeliveryHolds(Next(s, step), i) {
      if step.ReadSend? && step.sid == i { ReadHolds(s, step); } else { DeliveryKept(s, step, i); }
    }
  }

  lemma {:induction false} OnTheWayKept(s: State, step: Step)
    requires QueuesHold(s) && DeliveriesHold(s) && OnTheWayOnly(s) && Enabled(s, step)
    ensures OnTheWayOnly(Next(s, step))
  {
    var t := Next(s, step);
    forall i, j, n | i in t.sessions && t.sessions[i].delivery.Some? && j in t.sessions && 0 <= n < |t.sessions[j].channel.items|
                     && t.sessions[j].channel.items[n].sender == i
      ensures t.sessions[j].channel.items[n].index < |t.sessions[i].sends| - 1
    {
      OnTheWayAt(s, step, i, j, n);
    }
  }

  lemma {:induction false} OnTheWayAt(s: State, step: Step, i: Sid, j: Sid, n: nat)
    requires QueuesHold(s) && DeliveriesHold(s) && OnTheWayOnly(s) && Enabled(s, step)
    requires var t := Next(s, step);
             && i in t.sessions && t.sessions[i].delivery.Some? && j in t.sessions && n < |t.sessions[j].channel.items|
             && t.sessions[j].channel.items[n].sender == i
    ensures Next(s, step).sessions[j].channel.items[n].index < |Next(s, step).sessions[i].sends| - 1
  {
    if step.Deliver? { assert DeliveryHolds(s, step.sid); }
    QueueAfter(s, step, j);
    if n < |QueueOf(s, j)| { assert ItemHolds(s, s.sessions[j].address, QueueOf(s, j)[n]); }
    if !(step.ReadSend? && step.sid == i) { DeliveryAfter(s, step, i); }
  }

  lemma {:induction false} OrderKept(s: State, step: Step)
    requires DeliveriesHold(s) && OnTheWayOnly(s) && InOrder(s) && Enabled(s, step)
    ensures InOrder(Next(s, step))
  {
    var t := Next(s, step);
    forall j, m, n | j in t.sessions && 0 <= m < n < |t.sessions[j].channel.items|
                     && t.sessions[j].channel.items[m].sender == t.sessions[j].channel.items[n].sender
      ensures t.sessions[j].channel.items[m].index < t.sessions[j].channel.items[n].index
    {
      QueueAfter(s, step, j);
      assert QueueOf(t, j)[m] == QueueOf(s, j)[m];
      if n == |QueueOf(s, j)| { assert DeliveryHolds(s, step.sid); }
    }
  }

  lemma {:induction false} OneQueueKept(s: State, step: Step)
    requires DeliveriesHold(s) && OnTheWayOnly(s) && OneQueuePerSend(s) && Enabled(s, step)
    ensures OneQueuePerSend(Next(s, step))
  {
    var t := Next(s, step);
    forall i, j, m, n | i in t.sessions && j in t.sessions && 0 <= m < |t.sessions[i].channel.items| && 0 <= n < |t.sessions[j].channel.items|
                        && t.sessions[i].channel.items[m].sender == t.sessions[j].channel.items[n].sender
                        && t.sessions[i].channel.items[m].index == t.sessions[j].channel.items[n].index
      ensures i == j
    {
      QueueAfter(s, step, i);
      QueueAfter(s, step, j);
      if step.Deliver? { assert DeliveryHolds(s, step.sid); }
    }
  }

  lemma {:induction false} StepKept(s: State, step: Step)
    requires Holds(s) && Enabled(s, step)
    ensures Holds(Next(s, step))
  {
    PeersKept(s, step);
    QueuesKept(s, step);
    DeliveriesKept(s, step);
    OnTheWayKept(s, step);
    OrderKept(s, step);
    OneQueueKept(s, step);
  }

  lemma {:induction false} RunsHold(states: seq<State>, steps: seq<Step>, i: nat)
    requires IsRun(states, steps) && i < |states|
    ensures Holds(states[i])
  {
    if i > 0 {
      RunsHold(states, steps, i - 1);
      assert StepTaken(states, steps, i - 1);
      StepKept(states[i - 1], steps[i - 1]);
    }
  }

  // ---------- the promises ----------

  /** Every frame queued to a session is the push of a send addressed to it, from an enrolled hello-verified address. */
  lemma {:induction false} QueuedFramesAreAddressed(states: seq<State>, steps: seq<Step>, i: nat, j: Sid, n: nat)
    requires IsRun(states, steps) && i < |states| && j in states[i].sessions && n < |states[i].sessions[j].channel.items|
    ensures var s := states[i]; var item := s.sessions[j].channel.items[n];
            && item.sender in s.sessions && item.index < |s.sessions[item.sender].sends|
            && s.sessions[item.sender].sends[item.index] == Send(s.sessions[j].address, item.push.id, item.push.envelope)
            && item.push.from == s.sessions[item.sender].address
            && Lookup(s.members, s.sessions[item.sender].mesh, item.push.from).Some?
  {
    RunsHold(states, steps, i);
    assert ItemHolds(states[i], states[i].sessions[j].address, states[i].sessions[j].channel.items[n]);
  }

  /** A send yields at most one push over all sessions. */
  lemma {:induction false} EachSendPushedAtMostOnce(states: seq<State>, steps: seq<Step>, i: nat, j: Sid, k: Sid, m: nat, n: nat)
    requires IsRun(states, steps) && i < |states| && j in states[i].sessions && k in states[i].sessions
    requires m < |states[i].sessions[j].channel.items| && n < |states[i].sessions[k].channel.items|
    requires var a, b := states[i].sessions[j].channel.items[m], states[i].sessions[k].channel.items[n]; a.sender == b.sender && a.index == b.index
    ensures j == k && m == n
  {
    RunsHold(states, steps, i);
  }

  /** Pushes from one sender to one recipient session keep the order of the sends. */
  lemma {:induction false} PushesKeepOrder(states: seq<State>, steps: seq<Step>, i: nat, j: Sid, m: nat, n: nat)
    requires IsRun(states, steps) && i < |states| && j in states[i].sessions && m < n < |states[i].sessions[j].channel.items|
    requires states[i].sessions[j].channel.items[m].sender == states[i].sessions[j].channel.items[n].sender
    ensures states[i].sessions[j].channel.items[m].index < states[i].sessions[j].channel.items[n].index
  {
    RunsHold(states, steps, i);
  }

  /** Connected addresses are enrolled, so the total connected is at most the per-mesh counts summed. */
  lemma {:induction false} TotalConnectedBounded(states: seq<State>, steps: seq<Step>, i: nat)
    requires IsRun(states, steps) && i < |states|
    ensures var s := states[i];
            && (forall a :: a in s.peers ==> exists m :: m in s.members && a in s.members[m])
            && |s.peers| <= SumConnected(s.members, s.members.Keys, s.peers.Keys)
  {
    RunsHold(states, steps, i);
    var s := states[i];
    forall a | a in s.peers ensures exists m :: m in s.members.Keys && a in s.members[m] {
      var me := s.sessions[s.peers[a]];
      assert Lookup(s.members, me.mesh, me.address).Some?;
      assert me.mesh in s.members.Keys && a in s.members[me.mesh];
    }
    TotalAtMostSum(s.members, s.members.Keys, s.peers.Keys);
    assert |s.peers| == |s.peers.Keys|;
  }

  // ---------- who is registered ----------

  /** Sends to the session's address are routed to it. */
  ghost predicate Registered(s: State, sid: Sid) {
    sid in s.sessions && s.sessions[sid].address in s.peers && s.peers[s.sessions[sid].address] == sid
  }

  /** The session has been attached at some time. */
  ghost predicate Attached(s: State, sid: Sid) {
    sid in s.sessions && !s.sessions[sid].phase.Greeted?
  }

  ghost predicate IsOpen(s: State, sid: Sid) {
    sid in s.sessions && s.sessions[sid].phase.Open?
  }

  /** The step attaches, or ends, another session of the same address. */
  ghost predicate Displaces(s: State, step: Step, sid: Sid) {
    && (step.Attach? || step.EndRead?) && step.sid != sid
    && step.sid in s.sessions && sid in s.sessions && s.sessions[step.sid].address == s.sessions[sid].address
  }

  ghost predicate Undisplaced(states: seq<State>, steps: seq<Step>, sid: Sid, from: nat, i: nat)
    requires i <= |steps| < |states|
  {
    forall j :: from < j < i ==> !Displaces(states[j], steps[j], sid)
  }

  lemma {:induction false} OneStepRegistered(s: State, step: Step, sid: Sid)
    requires PeersEnrolled(s) && Enabled(s, step) && Attached(s, sid)
    ensures Attached(Next(s, step), sid)
    ensures IsOpen(Next(s, step), sid) ==> IsOpen(s, sid) && (Registered(Next(s, step), sid) <==> Registered(s, sid) && !Displaces(s, step, sid))
  {
  }

  lemma {:induction false} AttachRegisters(s: State, sid: Sid)
    requires Enabled(s, Attach(sid))
    ensures Attached(Next(s, Attach(sid)), sid) && Registered(Next(s, Attach(sid)), sid)
  {
  }

  lemma {:induction false} UndisplacedStep(states: seq<State>, steps: seq<Step>, sid: Sid, from: nat, i: nat)
    requires from < i < |steps| < |states|
    ensures Undisplaced(states, steps, sid, from, i + 1) <==> Undisplaced(states, steps, sid, from, i) && !Displaces(states[i], steps[i], sid)
  {
  }

  /**
   Over every run: as long as a session is open, it is the one registered for its address iff no other
   session of that address has been attached, or has ended, since its own attach. So the newest
   connection of an address is cut off when an older one ends.
   */
  lemma {:induction false} RegisteredUntilDisplaced(states: seq<State>, steps: seq<Step>, sid: Sid, from: nat, i: nat)
    requires IsRun(states, steps) && from < i <= |steps| && steps[from] == Attach(sid)
    ensures Attached(states[i], sid)
    ensures IsOpen(states[i], sid) ==> (Registered(states[i], sid) <==> Undisplaced(states, steps, sid, from, i))
  {
    var n := i - 1;
    RunsHold(states, steps, n);
    assert StepTaken(states, steps, n);
    if n == from {
      AttachRegisters(states[n], sid);
    } else {
      RegisteredUntilDisplaced(states, steps, sid, from, n);
      OneStepRegistered(states[n], steps[n], sid);
      UndisplacedStep(states, steps, sid, from, n);
    }
  }

  function SessionIn(mesh: MeshId, address: Address, phase: Phase): Session {
    Session(mesh, address, phase, [], None, Channel([], 0, false))
  }

  function StateWith(mesh: MeshId, address: Address, peers: map<Address, Sid>, phases: map<Sid, Phase>): State {
    State(map[mesh := map[address := Member(mesh, "", address, None)]], peers, map i | i in phases :: SessionIn(mesh, address, phases[i]))
  }

  lemma {:induction false} FirstConnects(mesh: MeshId, address: Address, s1: State, s2: State, s3: State)
    requires s1 == StateWith(mesh, address, map[], map[]) && s2 == StateWith(mesh, address, map[], map[1 := Greeted])
    requires s3 == StateWith(mesh, address, map[address := 1], map[1 := Open])
    ensures Next(Empty, Enroll(mesh, address, None, "")) == s1
    ensures Enabled(s1, Hello(1, mesh, address)) && Next(s1, Hello(1, mesh, address)) == s2
    ensures Enabled(s2, Attach(1)) && Next(s2, Attach(1)) == s3
  {
  }

  lemma {:induction false} SecondConnects(mesh: MeshId, address: Address, s3: State, s4: State, s5: State)
    requires s3 == StateWith(mesh, address, map[address := 1], map[1 := Open])
    requires s4 == StateWith(mesh, address, map[address := 1], map[1 := Open, 2 := Greeted])
    requires s5 == StateWith(mesh, address, map[address := 2], map[1 := Open, 2 := Open])
    ensures Enabled(s3, Hello(2, mesh, address)) && Next(s3, Hello(2, mesh, address)) == s4
    ensures Enabled(s4, Attach(2)) && Next(s4, Attach(2)) == s5
  {
  }

  lemma {:induction false} FirstEnds(mesh: MeshId, address: Address, s5: State, s6: State)
    requires s5 == StateWith(mesh, address, map[address := 2], map[1 := Open, 2 := Open])
    requires s6 == StateWith(mesh, address, map[], map[1 := Ended, 2 := Open])
    ensures Enabled(s5, EndRead(1)) && Next(s5, EndRead(1)) == s6
  {
  }

  /** The run in which it happens: 2 connects after 1, 1 ends, and 2 is open but sends to it are dropped. */
  lemma {:induction false} EndReadCutsOffAddress(mesh: MeshId, address: Address) returns (states: seq<State>, steps: seq<Step>)
    ensures IsRun(states, steps)
    ensures steps == [Enroll(mesh, address, None, ""), Hello(1, mesh, address), Attach(1), Hello(2, mesh, address), Attach(2), EndRead(1)]
    ensures Registered(states[5], 2)
    ensures IsOpen(states[6], 2) && states[6].sessions[2].address == address && address !in states[6].peers
  {
    steps := [Enroll(mesh, address, None, ""), Hello(1, mesh, address), Attach(1), Hello(2, mesh, address), Attach(2), EndRead(1)];
    states := [Empty,
               StateWith(mesh, address, map[], map[]),
               StateWith(mesh, address, map[], map[1 := Greeted]),
               StateWith(mesh, address, map[address := 1], map[1 := Open]),
               StateWith(mesh, address, map[address := 1], map[1 := Open, 2 := Greeted]),
               StateWith(mesh, address, map[address := 2], map[1 := Open, 2 := Open]),
               StateWith(mesh, address, map[], map[1 := Ended, 2 := Open])];
    FirstConnects(mesh, address, states[1], states[2], states[3]);
    SecondConnects(mesh, address, states[3], states[4], states[5]);
    FirstEnds(mesh, address, states[5], states[6]);
  }

  // ---------- when a session ends ----------

  /** Sessions that are done reading are not registered. */
  ghost predicate EndedUnregistered(s: State) {
    forall i :: i in s.sessions && s.sessions[i].phase.Ended? ==> !Registered(s, i)
  }

  lemma {:induction false} EndedUnregisteredKept(s: State, step: Step)
    requires PeersEnrolled(s) && EndedUnregistered(s) && Enabled(s, step)
    ensures EndedUnregistered(Next(s, step))
  {
  }

  lemma {:induction false} EndedIsUnregistered(states: seq<State>, steps: seq<Step>, i: nat)
    requires IsRun(states, steps) && i < |states|
    ensures EndedUnregistered(states[i])
  {
    if i > 0 {
      EndedIsUnregistered(states, steps, i - 1);
      RunsHold(states, steps, i - 1);
      assert StepTaken(states, steps, i - 1);
      EndedUnregisteredKept(states[i - 1], steps[i - 1]);
    }
  }

  /** The session is done reading, its writer has nothing to write, and nothing more is coming. */
  ghost predicate Idle(s: State, sid: Sid) {
    && sid in s.sessions && s.sessions[sid].phase.Ended? && !s.sessions[sid].channel.closed
    && s.sessions[sid].channel.taken == |s.sessions[sid].channel.items|
    && !OnItsWay(s, sid) && !Registered(s, sid)
  }

  lemma {:induction false} NothingComes(s: State, step: Step, sid: Sid)
    requires PeersEnrolled(s) && Idle(s, sid) && Enabled(s, step)
    ensures !OnItsWay(Next(s, step), sid)
  {
    forall i | i in Next(s, step).sessions && Next(s, step).sessions[i].delivery.Some?
      ensures Next(s, step).sessions[i].delivery.value.target != sid
    {
      if step.ReadSend? && step.sid == i {
        assert s.peers[step.send.to] in s.sessions && s.sessions[s.peers[step.send.to]].address == step.send.to;
      } else {
        DeliveryAfter(s, step, i);
      }
    }
  }

  lemma {:induction false} IdleStays(s: State, step: Step, sid: Sid)
    requires PeersEnrolled(s) && Idle(s, sid) && Enabled(s, step)
    ensures Idle(Next(s, step), sid)
  {
    NothingComes(s, step, sid);
  }

  lemma {:induction false} IdleForever(start: State, states: seq<State>, steps: seq<Step>, sid: Sid, i: nat)
    requires IsRunFrom(start, states, steps) && PeersEnrolled(start) && Idle(start, sid) && i < |states|
    ensures PeersEnrolled(states[i]) && Idle(states[i], sid)
  {
    if i > 0 {
      IdleForever(start, states, steps, sid, i - 1);
      assert StepTaken(states, steps, i - 1);
      PeersKept(states[i - 1], steps[i - 1]);
      IdleStays(states[i - 1], steps[i - 1], sid);
    }
  }

  /** From here the writer can end, which is what the task of a session that is done reading waits for. */
  ghost predicate CanEnd(s: State, sid: Sid) {
    exists states, steps :: IsRunFrom(s, states, steps) && WriterEnded(states[|steps|], sid)
  }

  ghost predicate WriterEnded(s: State, sid: Sid) {
    sid in s.sessions && s.sessions[sid].channel.closed
  }

  /** A frame that is left to write can fail. */
  lemma {:induction false} LeftToWrite(s: State, sid: Sid)
    requires sid in s.sessions && !s.sessions[sid].channel.closed && s.sessions[sid].channel.taken < |s.sessions[sid].channel.items|
    ensures CanEnd(s, sid)
  {
    var t := Next(s, WriteFails(sid));
    assert IsRunFrom(s, [s, t], [WriteFails(sid)]) && WriterEnded([s, t][1], sid);
  }

  lemma {:induction false} RunCons(s: State, step: Step, states: seq<State>, steps: seq<Step>)
    requires Enabled(s, step) && IsRunFrom(Next(s, step), states, steps)
    ensures IsRunFrom(s, [s] + states, [step] + steps)
  {
    var all, path := [s] + states, [step] + steps;
    forall i | 0 <= i < |path| ensures StepTaken(all, path, i) {
      if i > 0 { assert StepTaken(states, steps, i - 1); }
    }
  }

  lemma {:induction false} OneStepMore(s: State, step: Step, sid: Sid)
    requires Enabled(s, step) && CanEnd(Next(s, step), sid)
    ensures CanEnd(s, sid)
  {
    var states, steps :| IsRunFrom(Next(s, step), states, steps) && WriterEnded(states[|steps|], sid);
    RunCons(s, step, states, steps);
    assert WriterEnded(([s] + states)[|[step] + steps|], sid);
  }

  /** A push on its way to a session without a backlog arrives, and can fail then. */
  lemma {:induction false} OnItsWayCanEnd(s: State, sid: Sid, sender: Sid)
    requires sid in s.sessions && !s.sessions[sid].channel.closed && s.sessions[sid].channel.taken == |s.sessions[sid].channel.items|
    requires sender in s.sessions && s.sessions[sender].delivery.Some? && s.sessions[sender].delivery.value.target == sid
    ensures CanEnd(s, sid)
  {
    LeftToWrite(Next(s, Deliver(sender)), sid);
    OneStepMore(s, Deliver(sender), sid);
  }

  /**
   In every run: the task of a session that is done reading can still end iff its writer has ended, or has
   something to write, or will get something. Otherwise it waits for good, since its own sender keeps
   the channel open: no writer ever finds its channel drained.
   */
  lemma {:induction false} EndedSessionCanEnd(states: seq<State>, steps: seq<Step>, i: nat, sid: Sid)
    requires IsRun(states, steps) && i < |states| && sid in states[i].sessions && states[i].sessions[sid].phase.Ended?
    ensures var s := states[i];
            CanEnd(s, sid) <==> s.sessions[sid].channel.closed || s.sessions[sid].channel.taken < |s.sessions[sid].channel.items| || OnItsWay(s, sid)
  {
    var s := states[i];
    RunsHold(states, steps, i);
    TakenAtMost(states, steps, i);
    EndedIsUnregistered(states, steps, i);
    if s.sessions[sid].channel.closed {
      assert IsRunFrom(s, [s], []) && WriterEnded([s][0], sid);
    } else if s.sessions[sid].channel.taken < |s.sessions[sid].channel.items| {
      LeftToWrite(s, sid);
    } else if OnItsWay(s, sid) {
      var sender :| sender in s.sessions && s.sessions[sender].delivery.Some? && s.sessions[sender].delivery.value.target == sid;
      OnItsWayCanEnd(s, sid, sender);
    } else {
      forall more, path | IsRunFrom(s, more, path) ensures !WriterEnded(more[|path|], sid) {
        IdleForever(s, more, path, sid, |path|);
      }
    }
  }

  /** Writers take no more than was queued. */
  ghost predicate NotOvertaken(s: State) {
    forall j :: j in s.sessions ==> s.sessions[j].channel.taken <= |s.sessions[j].channel.items|
  }

  lemma {:induction false} NotOvertakenKept(s: State, step: Step)
    requires NotOvertaken(s) && Enabled(s, step)
    ensures NotOvertaken(Next(s, step))
  {
  }

  lemma {:induction false} TakenAtMost(states: seq<State>, steps: seq<Step>, i: nat)
    requires IsRun(states, steps) && i < |states|
    ensures NotOvertaken(states[i])
  {
    if i > 0 {
      TakenAtMost(states, steps, i - 1);
      assert StepTaken(states, steps, i - 1);
      NotOvertakenKept(states[i - 1], steps[i - 1]);
    }
  }
}
