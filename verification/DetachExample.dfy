/** A run in which a detach goes through, so that what `DetachSafety` says of presses is said of something. */
module DetachExample {
  import opened Wrappers
  import opened ControlProtocol
  import opened DriveLatch
  import opened ControlServer
  import opened MeshControlClient
  import opened LatchSafety
  import opened DetachSystem
  import opened DetachSafety

  const PEER := Peer("10.0.0.1", 4000)
  const ID := Identity("s", PEER, 100)
  const SESSION := Key("10.0.0.1", "s")
  const SMOOTH := Io(false, STILL)
  const NO_FAULTS := Faults(SMOOTH, SMOOTH, Fine, Fine, Fine, Fine, Fine)
  const CLEAN_START := StartFaults(Readable, SMOOTH, Fine)
  const NEW_DISK := Disk(false, Absent, [], {false}, {Absent})
  const HELD_DISK := Disk(false, Saved(false), [], {false}, {Saved(false)})
  const PLAN := Plan(Node1, Head, [Head, Node1])

  function ConfigOf(r: Role): Config {
    Config(r, {}, false, Limits(MAX_TTL_MS, 64))
  }

  function EachRole<T>(f: Role -> T): map<Role, T> {
    map[Head := f(Head), Node1 := f(Node1), Node2 := f(Node2), Node3 := f(Node3)]
  }

  const START := World(
    EachRole(ConfigOf), EachRole(r => Down(NEW_DISK)), {}, {}, C0, [], map[])

  /** A node's table once message `n` of the session is the last one in it. */
  function Heard(n: int): Table {
    Table(map[SESSION := SessionState(n, 0, 0)], [SESSION])
  }

  function OrderMessage(n: int, target: Role, command: Command): Message {
    Built(ID, Ref(n, target, command), if command.DetachPress? then Some(DetachContext(Some(Node1), true, Some(1))) else None, 0)
  }

  function Order(n: int, target: Role, command: Command): Packet {
    Packet(target, Json(OrderMessage(n, target, command)), PEER)
  }

  function Answer(n: int, target: Role, command: Command): Ack {
    Ack(PEER, target, Some("s"), Some(n), command, true)
  }

  function Handled(role: Role, m: Memory, c: Controller, d: Disk, n: int, command: Command): Outcome
    requires m.Ok()
  {
    Process(ConfigOf(role), m, c, d, Json(OrderMessage(n, role, command)), PEER, 0, NO_FAULTS)
  }

  /** What the validator does with an order; `before` is what it holds of the session. */
  lemma OrderAccepted(role: Role, n: int, command: Command, before: Table)
    requires command in {Stop, RelayHold, DetachPress}
    requires (before == ControlProtocol.EMPTY && command.Stop? && n >= 1) || exists m :: m < n && n >= 1 && before == Heard(m)
    ensures before.Ok()
    ensures ControlProtocol.Step(ConfigOf(role).limits, before, Arrival(OrderMessage(n, role, command), role, PEER.ip, 0))
         == (Heard(n), Verdict(true, ControlProtocol.Ok))
  {
    var a := Arrival(OrderMessage(n, role, command), role, PEER.ip, 0);
    assert SessionOk("s");
    assert Defect(a.msg, role, MAX_TTL_MS).None?;
    assert a.SessionKey() == SESSION;
    assert Put(before, SESSION, SessionState(n, 0, 0)) == Heard(n);
    assert |map[SESSION := SessionState(n, 0, 0)]| == 1;
  }

  lemma StopHandled(role: Role, n: int)
    requires n >= 1
    ensures var c := Controller(role, true, false, STILL);
      Handled(role, FRESH, c, NEW_DISK, n, Stop) == Outcome(Memory(Heard(n), Heard(n)), c, NEW_DISK, [], Answer(n, role, Stop), false)
  {
    hide ControlProtocol.Step, WithStop;
    OrderAccepted(role, n, Stop, ControlProtocol.EMPTY);
    StopRemembered(n);
  }

  lemma StopRemembered(n: int)
    ensures WithStop(ControlProtocol.EMPTY, SESSION, n, 0) == Heard(n)
  {
    assert Put(ControlProtocol.EMPTY, SESSION, SessionState(n, 0, 0)) == Heard(n);
    assert |map[SESSION := SessionState(n, 0, 0)]| == 1;
  }

  lemma HoldHandled()
    ensures var o := Handled(Node1, Memory(Heard(2), Heard(2)), Controller(Node1, true, false, STILL), NEW_DISK, 3, RelayHold);
      && o.memory == Memory(Heard(3), Heard(2)) && o.ctrl == Controller(Node1, false, false, STILL) && o.disk == HELD_DISK
      && o.ack == Answer(3, Node1, RelayHold) && !o.woke
  {
    hide ControlProtocol.Step, Apply, Remember;
    OrderAccepted(Node1, 3, RelayHold, Heard(2));
    HoldApplied();
  }

  lemma HoldApplied()
    ensures var e := Apply(Controller(Node1, true, false, STILL), NEW_DISK, RelayHold, NO_FAULTS);
      e.ctrl == Controller(Node1, false, false, STILL) && e.disk == HELD_DISK && e.reply.Applied? && !e.woke
  {
    assert Synced(WriteFile(NEW_DISK, Saved(false))) == HELD_DISK;
  }

  lemma PressHandled()
    ensures var o := Handled(Head, Memory(Heard(1), Heard(1)), Controller(Head, true, false, STILL), NEW_DISK, 4, DetachPress);
      o.ack == Answer(4, Head, DetachPress) && !o.woke && o.ctrl == Controller(Head, true, false, STILL)
  {
    hide ControlProtocol.Step, Remember, Armed, Forgotten;
    OrderAccepted(Head, 4, DetachPress, Heard(1));
    PressArmed();
  }

  lemma PressArmed()
    ensures Armed(ConfigOf(Head), Heard(1), Arrival(OrderMessage(4, Head, DetachPress), Head, PEER.ip, 0))
  {
  }

  /** An order that is handled and applied changes its node, adds its answer and is logged. */
  lemma DeliverOrder(w: World, role: Role, n: int, command: Command, m: Memory, c: Controller, d: Disk)
    requires Shape(w) && w.cfg[role] == ConfigOf(role) && w.nodes[role] == Up(m, c, d)
    requires m.Ok() && Order(n, role, command) in w.packets
    requires var o := Handled(role, m, c, d, n, command); o.ack == Answer(n, role, command) && !o.woke && o.ctrl.motion == STILL
    ensures var o := Handled(role, m, c, d, n, command);
      DetachSystem.Step(w, Deliver(Order(n, role, command), 0, NO_FAULTS)) ==
      w.(nodes := w.nodes[role := Up(o.memory, o.ctrl, o.disk)], acks := w.acks + {Answer(n, role, command)},
         log := w.log + [AppliedCommand(role, command, PEER.ip, "s", n, STILL)])
  {
    hide Process;
  }

  // --- The run ----------------------------------------------------------------------

  const S1 := Ref(1, Head, Stop)
  const S2 := Ref(2, Node1, Stop)
  const H := Ref(3, Node1, RelayHold)
  const P := Ref(4, Head, DetachPress)

  /** The parts of a world the run is about. */
  ghost predicate Looks(w: World, head: NodeState, node1: NodeState, c: Client, packets: set<Packet>, acks: set<Ack>, log: seq<Event>) {
    && Shape(w) && w.cfg[Head] == ConfigOf(Head) && w.cfg[Node1] == ConfigOf(Node1)
    && w.nodes[Head] == head && w.nodes[Node1] == node1 && w.client == c
    && w.packets == packets && w.acks == acks && w.log == log
  }

  function Done(n: int, role: Role, command: Command): Event {
    AppliedCommand(role, command, PEER.ip, "s", n, STILL)
  }

  function Fresh(role: Role): NodeState {
    Up(FRESH, Controller(role, true, false, STILL), NEW_DISK)
  }

  function Stopped(role: Role, n: int): NodeState {
    Up(Memory(Heard(n), Heard(n)), Controller(role, true, false, STILL), NEW_DISK)
  }

  const HEAD_UP := Fresh(Head)
  const NODE1_UP := Fresh(Node1)
  const HEAD_STOPPED := Stopped(Head, 1)
  const NODE1_STOPPED := Stopped(Node1, 2)
  const NODE1_HELD := Up(Memory(Heard(3), Heard(2)), Controller(Node1, false, false, STILL), HELD_DISK)

  // The controller between its actions.
  const C0 := Client(ID, 0, map[], map[], Ready(None))
  const C1 := C0.(phase := SendingStops(PLAN, [], false))
  const C2 := Client(ID, 1, map[1 := S1], map[], SendingStops(PLAN, [S1], false))
  const C3 := Client(ID, 2, map[1 := S1, 2 := S2], map[], AwaitingStops(PLAN, [S1, S2], 0, true, false))
  const C4 := C3.(inbox := map[1 := Answer(1, Head, Stop)])
  const C5 := Client(ID, 2, map[2 := S2], C4.inbox, AwaitingStops(PLAN, [S1, S2], 1, true, false))
  const C6 := C5.(inbox := map[1 := Answer(1, Head, Stop), 2 := Answer(2, Node1, Stop)])
  const C7 := Client(ID, 2, map[], C6.inbox, AwaitingStops(PLAN, [S1, S2], 2, true, false))
  const C8 := Client(ID, 3, map[3 := H], C6.inbox, AwaitingHold(PLAN, [S1, S2], H))
  const C9 := C8.(inbox := C6.inbox[3 := Answer(3, Node1, RelayHold)])
  const C10 := Client(ID, 3, map[], C9.inbox, HoldConfirmed(PLAN, [S1, S2], H))
  const C11 := Client(ID, 4, map[4 := P], C9.inbox, AwaitingPress(PLAN, [S1, S2], H, P))

  function Out(n: int, role: Role, command: Command): Option<Outgoing> {
    Some(Outgoing(role, OrderMessage(n, role, command)))
  }

  lemma StopsScript()
    ensures Act(C0, StartDetach(Node1, [Head, Node1])) == (C1, None)
    ensures Act(C1, SendStop(0)) == (C2, Out(1, Head, Stop))
    ensures Act(C2, SendStop(0)) == (C3, Out(2, Node1, Stop))
  {
    assert [] + [S1] == [S1] && [S1] + [S2] == [S1, S2];
    assert map[][1 := S1] == map[1 := S1] && map[1 := S1][2 := S2] == map[1 := S1, 2 := S2];
    assert Send(C1, Head, Stop, None, 0, true).1 == Outgoing(Head, OrderMessage(1, Head, Stop));
    assert Act(C1, SendStop(0)).0.phase == C2.phase;
    assert Act(C2, SendStop(0)).0.phase == C3.phase;
  }

  lemma ConfirmScript()
    ensures Act(C3, Hear(Answer(1, Head, Stop))) == (C4, None)
    ensures Act(C4, TakeStop) == (C5, None)
    ensures Act(C5, Hear(Answer(2, Node1, Stop))) == (C6, None)
    ensures Act(C6, TakeStop) == (C7, None)
  {
    assert map[1 := S1, 2 := S2] - {1} == map[2 := S2];
    assert map[2 := S2] - {2} == map[];
  }

  lemma HoldScript()
    ensures Act(C7, SendHold(0)) == (C8, Out(3, Node1, RelayHold))
    ensures Act(C8, Hear(Answer(3, Node1, RelayHold))) == (C9, None)
    ensures Act(C9, TakeHold) == (C10, None)
  {
    assert map[3 := H] - {3} == map[];
  }

  lemma PressScript()
    ensures Act(C10, SendPress(0)) == (C11, Out(4, Head, DetachPress))
  {
    assert [S1, S2][..1] == [S1];
    assert ReceiptOf([S1], Head) == Some(S1);
    assert ReceiptOf([S1, S2], Head) == Some(S1);
  }

  // --- The world along the run --------------------------------------------------------

  lemma OneMore(run: seq<Label>, l: Label)
    requires Initial(START)
    ensures Reached(START, run + [l]) == DetachSystem.Step(Reached(START, run), l)
  {
    assert (run + [l])[..|run|] == run;
    hide DetachSystem.Step, Initial, Inv;
  }

  /** The run so far has led to these parts of the world. */
  ghost predicate LedTo(run: seq<Label>, head: NodeState, node1: NodeState, c: Client, packets: set<Packet>, acks: set<Ack>, log: seq<Event>) {
    Initial(START) && Looks(Reached(START, run), head, node1, c, packets, acks, log)
  }

  lemma NodeStart(w: World, role: Role)
    requires Shape(w) && w.nodes[role] == Down(NEW_DISK)
    ensures DetachSystem.Step(w, StartNode(role, CLEAN_START)) ==
            w.(nodes := w.nodes[role := Up(FRESH, Controller(role, true, false, STILL), NEW_DISK)])
  {
    assert StartUp(role, NEW_DISK, CLEAN_START) == Start(true, Controller(role, true, false, STILL), NEW_DISK, []);
    hide StartUp;
  }

  lemma NodeStarts(run: seq<Label>, role: Role, head: NodeState, node1: NodeState) returns (run': seq<Label>)
    requires LedTo(run, head, node1, C0, {}, {}, []) && role in {Head, Node1}
    requires (if role.Head? then head else node1) == Down(NEW_DISK)
    ensures LedTo(run', if role.Head? then HEAD_UP else head, if role.Head? then node1 else NODE1_UP, C0, {}, {}, [])
  {
    run' := run + [StartNode(role, CLEAN_START)];
    OneMore(run, StartNode(role, CLEAN_START));
    NodeStart(Reached(START, run), role);
    hide Reached, Initial, DetachSystem.Step, ConfigOf;
  }

  function OnTheWire(packets: set<Packet>, out: Option<Outgoing>): set<Packet> {
    if out.None? then packets else packets + {Packet(out.value.target, Json(out.value.msg), PEER)}
  }

  lemma ControllerActs(run: seq<Label>, a: Action, head: NodeState, node1: NodeState, c: Client, c': Client, out: Option<Outgoing>,
                       packets: set<Packet>, acks: set<Ack>, log: seq<Event>) returns (run': seq<Label>)
    requires LedTo(run, head, node1, c, packets, acks, log) && c.id == ID && Act(c, a) == (c', out)
    requires a.Hear? ==> a.ack in acks && a.ack.to == PEER
    ensures LedTo(run', head, node1, c', OnTheWire(packets, out), acks, log)
  {
    run' := run + [ClientActs(a)];
    OneMore(run, ClientActs(a));
    ActFacts(c, a);
    hide Reached, Initial, Act;
  }

  lemma OrderArrives(run: seq<Label>, role: Role, n: int, command: Command, m: Memory, c: Controller, d: Disk, o: Outcome,
                     head: NodeState, node1: NodeState, client: Client, packets: set<Packet>, acks: set<Ack>, log: seq<Event>)
    returns (run': seq<Label>)
    requires LedTo(run, head, node1, client, packets, acks, log) && role in {Head, Node1} && m.Ok()
    requires (if role.Head? then head else node1) == Up(m, c, d) && Order(n, role, command) in packets
    requires o == Handled(role, m, c, d, n, command) && o.ack == Answer(n, role, command) && !o.woke && o.ctrl.motion == STILL
    ensures LedTo(run', if role.Head? then Up(o.memory, o.ctrl, o.disk) else head, if role.Head? then node1 else Up(o.memory, o.ctrl, o.disk),
                  client, packets, acks + {Answer(n, role, command)}, log + [Done(n, role, command)])
  {
    var l := Deliver(Order(n, role, command), 0, NO_FAULTS);
    run' := run + [l];
    hide Reached, Initial, Handled, DetachSystem.Step, Order, Answer;
    OneMore(run, l);
    DeliverOrder(Reached(START, run), role, n, command, m, c, d);
  }

  lemma StopsGoOut() returns (run: seq<Label>)
    ensures LedTo(run, HEAD_UP, NODE1_UP, C3, {Order(1, Head, Stop), Order(2, Node1, Stop)}, {}, [])
  {
    StartIsInitial();
    StopsScript();
    hide LedTo, Act;
    run := NodeStarts([], Head, Down(NEW_DISK), Down(NEW_DISK));
    run := NodeStarts(run, Node1, HEAD_UP, Down(NEW_DISK));
    run := ControllerActs(run, StartDetach(Node1, [Head, Node1]), HEAD_UP, NODE1_UP, C0, C1, None, {}, {}, []);
    run := ControllerActs(run, SendStop(0), HEAD_UP, NODE1_UP, C1, C2, Out(1, Head, Stop), {}, {}, []);
    assert {} + {Order(1, Head, Stop)} == {Order(1, Head, Stop)};
    run := ControllerActs(run, SendStop(0), HEAD_UP, NODE1_UP, C2, C3, Out(2, Node1, Stop), {Order(1, Head, Stop)}, {}, []);
    assert {Order(1, Head, Stop)} + {Order(2, Node1, Stop)} == {Order(1, Head, Stop), Order(2, Node1, Stop)};
  }

  lemma StartIsInitial()
    ensures LedTo([], Down(NEW_DISK), Down(NEW_DISK), C0, {}, {}, [])
  {
    forall r: Role
      ensures r in START.nodes && r in START.cfg
      ensures START.nodes[r] == Down(NEW_DISK) && START.cfg[r] == ConfigOf(r)
    {
      match r
      case Head | Node1 | Node2 | Node3 =>
    }
  }

  const STOPS := {Order(1, Head, Stop), Order(2, Node1, Stop)}
  const STOPPED := {Answer(1, Head, Stop), Answer(2, Node1, Stop)}
  const STOPS_DONE := [Done(1, Head, Stop), Done(2, Node1, Stop)]

  lemma StopsArrive(before: seq<Label>) returns (run: seq<Label>)
    requires LedTo(before, HEAD_UP, NODE1_UP, C3, STOPS, {}, [])
    ensures LedTo(run, HEAD_STOPPED, NODE1_STOPPED, C3, STOPS, STOPPED, STOPS_DONE)
  {
    hide LedTo;
    var acks, log := {Answer(1, Head, Stop)}, [Done(1, Head, Stop)];
    run := StopArrives(before, Head, 1, HEAD_UP, NODE1_UP, C3, STOPS, {}, []);
    assert {} + acks == acks && [] + log == log;
    run := StopArrives(run, Node1, 2, HEAD_STOPPED, NODE1_UP, C3, STOPS, acks, log);
    assert acks + {Answer(2, Node1, Stop)} == STOPPED;
    assert log + [Done(2, Node1, Stop)] == STOPS_DONE;
  }

  lemma StopArrives(before: seq<Label>, role: Role, n: int, head: NodeState, node1: NodeState, c: Client,
                    packets: set<Packet>, acks: set<Ack>, log: seq<Event>) returns (run: seq<Label>)
    requires LedTo(before, head, node1, c, packets, acks, log) && role in {Head, Node1} && n >= 1
    requires (if role.Head? then head else node1) == Fresh(role) && Order(n, role, Stop) in packets
    ensures LedTo(run, if role.Head? then Stopped(role, n) else head, if role.Head? then node1 else Stopped(role, n),
                  c, packets, acks + {Answer(n, role, Stop)}, log + [Done(n, role, Stop)])
  {
    StopHandled(role, n);
    hide LedTo, Handled;
    run := OrderArrives(before, role, n, Stop, FRESH, Controller(role, true, false, STILL), NEW_DISK,
                        Handled(role, FRESH, Controller(role, true, false, STILL), NEW_DISK, n, Stop),
                        head, node1, c, packets, acks, log);
  }

  lemma StopsConfirmed(before: seq<Label>) returns (run: seq<Label>)
    requires LedTo(before, HEAD_STOPPED, NODE1_STOPPED, C3, STOPS, STOPPED, STOPS_DONE)
    ensures LedTo(run, HEAD_STOPPED, NODE1_STOPPED, C8, STOPS + {Order(3, Node1, RelayHold)}, STOPPED, STOPS_DONE)
  {
    ConfirmScript();
    HoldScript();
    hide LedTo, Act;
    var (h, n) := (HEAD_STOPPED, NODE1_STOPPED);
    run := ControllerActs(before, Hear(Answer(1, Head, Stop)), h, n, C3, C4, None, STOPS, STOPPED, STOPS_DONE);
    run := ControllerActs(run, TakeStop, h, n, C4, C5, None, STOPS, STOPPED, STOPS_DONE);
    run := ControllerActs(run, Hear(Answer(2, Node1, Stop)), h, n, C5, C6, None, STOPS, STOPPED, STOPS_DONE);
    run := ControllerActs(run, TakeStop, h, n, C6, C7, None, STOPS, STOPPED, STOPS_DONE);
    run := ControllerActs(run, SendHold(0), h, n, C7, C8, Out(3, Node1, RelayHold), STOPS, STOPPED, STOPS_DONE);
  }

  lemma HoldArrives(before: seq<Label>, packets: set<Packet>) returns (run: seq<Label>)
    requires LedTo(before, HEAD_STOPPED, NODE1_STOPPED, C8, packets, STOPPED, STOPS_DONE) && Order(3, Node1, RelayHold) in packets
    ensures LedTo(run, HEAD_STOPPED, NODE1_HELD, C8, packets, STOPPED + {Answer(3, Node1, RelayHold)},
                  STOPS_DONE + [Done(3, Node1, RelayHold)])
  {
    HoldHandled();
    var o := Handled(Node1, Memory(Heard(2), Heard(2)), Controller(Node1, true, false, STILL), NEW_DISK, 3, RelayHold);
    hide LedTo, Process;
    run := OrderArrives(before, Node1, 3, RelayHold, Memory(Heard(2), Heard(2)), Controller(Node1, true, false, STILL), NEW_DISK, o,
                        HEAD_STOPPED, NODE1_STOPPED, C8, packets, STOPPED, STOPS_DONE);
  }

  lemma HoldIsConfirmed(before: seq<Label>, packets: set<Packet>, acks: set<Ack>, log: seq<Event>) returns (run: seq<Label>)
    requires LedTo(before, HEAD_STOPPED, NODE1_HELD, C8, packets, acks, log) && Answer(3, Node1, RelayHold) in acks
    ensures LedTo(run, HEAD_STOPPED, NODE1_HELD, C11, packets + {Order(4, Head, DetachPress)}, acks, log)
  {
    HoldScript();
    PressScript();
    hide LedTo, Act;
    run := ControllerActs(before, Hear(Answer(3, Node1, RelayHold)), HEAD_STOPPED, NODE1_HELD, C8, C9, None, packets, acks, log);
    run := ControllerActs(run, TakeHold, HEAD_STOPPED, NODE1_HELD, C9, C10, None, packets, acks, log);
    run := ControllerActs(run, SendPress(0), HEAD_STOPPED, NODE1_HELD, C10, C11, Out(4, Head, DetachPress), packets, acks, log);
  }

  lemma PressArrives(before: seq<Label>, packets: set<Packet>, acks: set<Ack>, log: seq<Event>) returns (run: seq<Label>)
    requires LedTo(before, HEAD_STOPPED, NODE1_HELD, C11, packets, acks, log) && Order(4, Head, DetachPress) in packets
    ensures Initial(START) && Reached(START, run).log == log + [Done(4, Head, DetachPress)] && Reached(START, run).client.id == ID
    ensures Reached(START, run).nodes[Node1] == NODE1_HELD
  {
    PressHandled();
    var m, c := Memory(Heard(1), Heard(1)), Controller(Head, true, false, STILL);
    var o := Handled(Head, m, c, NEW_DISK, 4, DetachPress);
    hide Process, Reached, Initial;
    run := OrderArrives(before, Head, 4, DetachPress, m, c, NEW_DISK, o, HEAD_STOPPED, NODE1_HELD, C11, packets, acks, log);
  }

  lemma HeldIsLatched()
    ensures Latched(NODE1_HELD)
  {
  }

  /**
   A detach can go through: a run without faults in which both active nodes
   stop, the released one applies its hold and the servo is pressed.
   */
  lemma DetachGoesThrough() returns (run: seq<Label>, p: nat)
    ensures Initial(START)
    ensures var w := Reached(START, run);
      && p < |w.log| && IsOwnEvent(w.client.id, w.log[p]) && w.log[p].command.DetachPress?
      && Latched(w.nodes[Node1]) && w.nodes[Node1].Up?
  {
    HeldIsLatched();
    hide Reached, Initial, LedTo, Latched;
    run := StopsGoOut();
    run := StopsArrive(run);
    run := StopsConfirmed(run);
    run := HoldArrives(run, STOPS + {Order(3, Node1, RelayHold)});
    var packets := STOPS + {Order(3, Node1, RelayHold)};
    var acks, log := STOPPED + {Answer(3, Node1, RelayHold)}, STOPS_DONE + [Done(3, Node1, RelayHold)];
    run := HoldIsConfirmed(run, packets, acks, log);
    run := PressArrives(run, packets + {Order(4, Head, DetachPress)}, acks, log);
    p := |log|;
  }
}
