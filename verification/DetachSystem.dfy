/**
 The controller, the four robot nodes and the network between them as one step
 system.  Datagrams may be lost, duplicated, delayed and reordered; nodes may
 crash at any point, lose unsynced disk writes, and start again.

 Acknowledgements are not forged, and no other sender shares both the source
 address and the random session identifier of the controller.
 */
module DetachSystem {
  import opened Wrappers
  import opened ControlProtocol
  import opened DriveLatch
  import opened ControlServer
  import opened MeshControlClient
  import opened LatchSafety

  datatype Packet = Packet(to: Role, data: Datagram, peer: Peer)

  datatype NodeState =
    | Up(memory: Memory, ctrl: Controller, disk: Disk)
    | Down(disk: Disk)

  /**
   What has happened on the nodes, in order.  An applied command is logged with
   how the node moved when it acknowledged it.  `Freed`: an enable was applied,
   or its marker was unlinked and that was not taken back.
   */
  datatype Event =
    | AppliedCommand(node: Role, command: Command, ip: string, session: string, seqNo: int, moving: Motion)
    | Freed(node: Role)

  /** How a number of the controller came to be sent, and how much had happened by then. */
  datatype Sent = Sent(ref: Ref, context: Option<DetachContext>, at: nat, because: Phase)

  datatype World = World(
    cfg: map<Role, Config>,
    nodes: map<Role, NodeState>,
    packets: set<Packet>,
    acks: set<Ack>,
    client: Client,
    log: seq<Event>,
    history: map<int, Sent>)

  datatype Label =
    | ClientActs(action: Action)
    | ForeignSend(packet: Packet)
    | Deliver(packet: Packet, nowNs: int, faults: Faults)
    | CrashInside(packet: Packet, nowNs: int, faults: Faults, at: nat, left: Disk)
    | Crash(node: Role, left: Disk)
    | StartNode(node: Role, startFaults: StartFaults)
    | CrashStarting(node: Role, startFaults: StartFaults, at: nat, left: Disk)
    | LoopDies(node: Role)

  ghost predicate Shape(w: World) {
    && (forall r: Role :: r in w.nodes && r in w.cfg)
    && (forall r: Role :: w.cfg[r].role == r && !w.cfg[r].unsafeRawDetach)
    && (forall r: Role :: w.nodes[r].Up? ==> w.nodes[r].memory.Ok() && w.nodes[r].ctrl.role == r)
  }

  predicate Own(id: Identity, peer: Peer, session: Option<string>) {
    peer.ip == id.peer.ip && session == Some(id.session)
  }

  predicate IsOwnPacket(id: Identity, p: Packet) {
    p.data.Json? && Own(id, p.peer, p.data.msg.session)
  }

  ghost function ProcessedBy(w: World, p: Packet, nowNs: int, f: Faults): (o: Outcome)
    requires Shape(w) && w.nodes[p.to].Up?
    ensures o.memory.Ok()
  {
    var n := w.nodes[p.to];
    Process(w.cfg[p.to], n.memory, n.ctrl, n.disk, p.data, p.peer, nowNs, f)
  }

  /** What one processed datagram adds to the log. */
  function Happened(node: Role, c: Controller, p: Packet, f: Faults, o: Outcome): seq<Event> {
    (if o.woke && Frees(c, f) then [Freed(node)] else []) +
    (if o.ack.applied && p.data.Json? && p.data.msg.session.Some? && p.data.msg.seqNo.Some? then
       [AppliedCommand(node, p.data.msg.command, p.peer.ip, p.data.msg.session.value, p.data.msg.seqNo.value, o.ctrl.motion)]
     else [])
  }

  /** A crash once the unlink of the marker has taken effect frees the node. */
  function FreedByCrash(node: Role, n: NodeState, f: Faults, o: Outcome, at: nat): seq<Event>
    requires n.Up?
  {
    if o.woke && Unlinks(n.ctrl, f) && at >= |BeforeUnlink(n.disk, f)| then [Freed(node)] else []
  }

  /** An action of the controller; it hears only acknowledgements addressed to it that were really sent. */
  ghost function ClientStep(w: World, a: Action): World {
    if a.Hear? && !(a.ack in w.acks && a.ack.to == w.client.id.peer) then w
    else
      var (c, out) := Act(w.client, a);
      if out.None? then w.(client := c)
      else
        var o := out.value;
        var sent := Sent(Ref(c.seqNo, o.target, o.msg.command), o.msg.context, |w.log|, w.client.phase);
        w.(client := c, packets := w.packets + {Packet(o.target, Json(o.msg), c.id.peer)},
           history := w.history[c.seqNo := sent])
  }

  ghost function Step(w: World, l: Label): World
    requires Shape(w)
  {
    match l
    case ClientActs(a) => ClientStep(w, a)
    case ForeignSend(p) =>
      if IsOwnPacket(w.client.id, p) then w else w.(packets := w.packets + {p})
    case Deliver(p, nowNs, f) =>
      if p !in w.packets || w.nodes[p.to].Down? then w
      else
        var o := ProcessedBy(w, p, nowNs, f);
        w.(nodes := w.nodes[p.to := Up(o.memory, o.ctrl, o.disk)], acks := w.acks + {o.ack},
           log := w.log + Happened(p.to, w.nodes[p.to].ctrl, p, f, o))
    case CrashInside(p, nowNs, f, at, left) =>
      if p !in w.packets || w.nodes[p.to].Down? then w
      else
        var o := ProcessedBy(w, p, nowNs, f);
        if at >= |o.passed| || !MayLeave(o.passed[at], left) then w
        else
          w.(nodes := w.nodes[p.to := Down(left)],
             log := w.log + FreedByCrash(p.to, w.nodes[p.to], f, o, at))
    case Crash(n, left) =>
      if MayLeave(w.nodes[n].disk, left) then w.(nodes := w.nodes[n := Down(left)]) else w
    case StartNode(n, f) =>
      if w.nodes[n].Up? then w
      else
        var s := StartUp(n, w.nodes[n].disk, f);
        w.(nodes := w.nodes[n := if s.up then Up(FRESH, s.ctrl, s.disk) else Down(s.disk)])
    case CrashStarting(n, f, at, left) =>
      if w.nodes[n].Up? then w
      else
        var s := StartUp(n, w.nodes[n].disk, f);
        if at >= |s.passed| || !MayLeave(s.passed[at], left) then w
        else w.(nodes := w.nodes[n := Down(left)])
    case LoopDies(n) =>
      if w.nodes[n].Down? then w
      else w.(nodes := w.nodes[n := w.nodes[n].(ctrl := FailClosed(w.nodes[n].ctrl))])
  }

  /** Nodes down, nothing sent, the controller about to begin. */
  ghost predicate Initial(w: World) {
    && Shape(w)
    && (forall r: Role :: w.nodes[r].Down? && w.nodes[r].disk.Ok())
    && w.packets == {} && w.acks == {} && w.log == [] && w.history == map[]
    && w.client == Client(w.client.id, 0, map[], map[], Ready(None))
  }

  // --- What the nodes guarantee -------------------------------------------------

  predicate Latches(c: Command) {
    c.RelayHold? || c.DriveDisable?
  }

  lemma ApplyKeepsRole(c: Controller, d: Disk, command: Command, f: Faults)
    ensures Apply(c, d, command, f).ctrl.role == c.role
  {
    hide Passes;
  }

  /** A command that is not an enable leaves still wheels still while propulsion is off. */
  lemma ApplyKeepsStill(c: Controller, d: Disk, command: Command, f: Faults)
    requires !c.enabled && c.motion == STILL
    ensures var e := Apply(c, d, command, f); !e.ctrl.enabled ==> e.ctrl.motion == STILL
  {
    hide Passes;
  }

  lemma StopApplies(c: Controller, d: Disk, f: Faults)
    ensures var e := Apply(c, d, Stop, f); e.ctrl.motion == STILL && e.ctrl.enabled == c.enabled && e.disk == d
  {
    StopStills(c, Stop, f.io);
  }

  /** A processed datagram: what an applied acknowledgement means. */
  lemma AppliedFacts(cfg: Config, m: Memory, c: Controller, d: Disk, data: Datagram, peer: Peer, nowNs: int, f: Faults)
    requires m.Ok() && d.Ok() && !cfg.unsafeRawDetach
    ensures var o := Process(cfg, m, c, d, data, peer, nowNs, f);
      && o.disk.Ok() && AllOk(o.passed) && o.ctrl.role == c.role
      && (o.ack.applied ==>
            && data.Json? && data.msg.session.Some? && data.msg.seqNo.Some? && data.msg.target == Some(cfg.role)
            && o.ack == Ack(peer, cfg.role, data.msg.session, data.msg.seqNo, data.msg.command, true)
            && (data.msg.command.DetachPress? ==> data.msg.context.Some?)
            && (data.msg.command.Stop? ==> o.ctrl.motion == STILL && o.ctrl.enabled == c.enabled && o.disk == d)
            && (Latches(data.msg.command) ==>
                  Secure(o.disk) && !o.ctrl.enabled && o.ctrl.motion == STILL && !o.woke))
  {
    hide Step, Apply, NoteApplied, CouldWake;
    if data.Json? {
      var command := data.msg.command;
      AcceptedParts(cfg.limits, m.sessions, Arrival(data.msg, cfg.role, peer.ip, nowNs));
      ApplyKeepsOk(c, d, command, f);
      ApplyKeepsRole(c, d, command, f);
      StopApplies(c, d, f);
      if Latches(command) && Apply(c, d, command, f).reply.Applied? {
        HoldSticks(c, d, command, f);
      }
    }
  }

  /** A node that is latched, up or down: its wheels are still and its disk starts up latched. */
  ghost predicate Latched(n: NodeState) {
    Secure(n.disk) && (n.Up? ==> !n.ctrl.enabled && n.ctrl.motion == STILL)
  }

  /** A processed datagram frees a latched node only by an enable that was applied or not taken back. */
  lemma StaysLatchedUnlessFreed(cfg: Config, m: Memory, c: Controller, d: Disk, data: Datagram, peer: Peer, nowNs: int, f: Faults)
    requires m.Ok() && Latched(Up(m, c, d))
    requires !(Process(cfg, m, c, d, data, peer, nowNs, f).woke && Frees(c, f))
    ensures var o := Process(cfg, m, c, d, data, peer, nowNs, f); Latched(Up(o.memory, o.ctrl, o.disk))
  {
    hide Step, Apply, NoteApplied, CouldWake, Frees;
    if data.Json? {
      ApplyKeepsOk(c, d, data.msg.command, f);
      ApplyKeepsStill(c, d, data.msg.command, f);
      FreedIff(c, d, data.msg.command, f);
    }
  }

  lemma CrashInsideSecure(cfg: Config, m: Memory, c: Controller, d: Disk, data: Datagram, peer: Peer, nowNs: int, f: Faults,
                          at: nat)
    requires m.Ok() && Secure(d)
    requires var o := Process(cfg, m, c, d, data, peer, nowNs, f);
      at < |o.passed| && !(o.woke && Unlinks(c, f) && at >= |BeforeUnlink(d, f)|)
    ensures Secure(Process(cfg, m, c, d, data, peer, nowNs, f).passed[at])
  {
    hide ControlProtocol.Step, Apply, NoteApplied, CouldWake, BeforeUnlink, Unlinks;
    var o := Process(cfg, m, c, d, data, peer, nowNs, f);
    assert data.Json?;
    var e := Apply(c, d, data.msg.command, f);
    assert o.passed == e.passed && o.woke == e.woke;
    SecureBeforeUnlink(c, d, data.msg.command, f, at);
  }

  lemma StartFacts(role: Role, d: Disk, f: StartFaults)
    requires d.Ok()
    ensures var s := StartUp(role, d, f);
      && s.disk.Ok() && AllOk(s.passed) && s.ctrl.role == role
      && (Secure(d) ==> Secure(s.disk) && AllSecure(s.passed) && !s.ctrl.enabled && s.ctrl.motion == STILL)
  {
    hide Passes, CouldWake, Load;
    WriteOk(d, WriteFile(d, Saved(false)), f.save);
    if Secure(d) {
      SecureStart(role, d, f);
    }
  }
}
