/**
 The packet-processing core of a robot node (robot/mesh_control_server.py,
 `ControlServerCore`) and its start-up.
 */
module ControlServer {
  import opened Wrappers
  import opened ControlProtocol
  import opened DriveLatch

  const DETACH_STOP_WINDOW_NS := 10_000_000_000
  const MAX_RECENT_STOPS := 256

  /** Which node's servo releases a node. */
  function DetachActuator(released: Role): Option<Role> {
    match released
    case Head => None
    case Node1 => Some(Head)
    case Node2 => Some(Node1)
    case Node3 => Some(Node2)
  }

  datatype Peer = Peer(ip: string, port: nat)

  datatype Datagram = Garbage | Json(msg: Message)

  datatype Config = Config(role: Role, allowed: set<string>, unsafeRawDetach: bool, limits: Limits)
  {
    /** An empty allow-list admits every source. */
    predicate Allows(ip: string) {
      allowed == {} || ip in allowed
    }
  }

  /** The acknowledgement sent back to the peer, echoing the request's identity. */
  datatype Ack = Ack(
    to: Peer, from: Role, session: Option<string>, seqNo: Option<int>, command: Command, applied: bool)

  /** Recent stops: sequence number and receive time per session, in a bounded table. */
  datatype Memory = Memory(sessions: Table, stops: Table)
  {
    ghost predicate Ok() {
      sessions.Ok() && stops.Ok()
    }
  }

  const FRESH := Memory(EMPTY, EMPTY)

  function IndexOf(order: seq<Key>, k: Key): (i: nat)
    requires k in order
    ensures i < |order| && order[i] == k
  {
    if order[0] == k then 0 else 1 + IndexOf(order[1..], k)
  }

  function Forgotten(t: Table, k: Key): (r: Table)
    requires t.Ok()
    ensures r.Ok()
  {
    if k in t.states then RemoveAt(t, IndexOf(t.order, k)) else t
  }

  /** `_remember_stop`. */
  function WithStop(stops: Table, k: Key, seqNo: int, nowNs: int): (r: Table)
    requires stops.Ok()
    ensures r.Ok()
  {
    Remember(stops, MAX_RECENT_STOPS, k, SessionState(seqNo, 0, nowNs))
  }

  /** `_detach_request_is_armed`. */
  predicate Armed(cfg: Config, stops: Table, a: Arrival) {
    cfg.unsafeRawDetach ||
    (&& a.msg.context.Some?
     && a.msg.context.value.releasedNode.Some?
     && a.msg.context.value.acknowledged
     && DetachActuator(a.msg.context.value.releasedNode.value) == Some(cfg.role)
     && a.msg.context.value.stopSeq.Some?
     && a.msg.session.Some?
     && a.SessionKey() in stops.states
     && a.msg.context.value.stopSeq.value == stops.states[a.SessionKey()].lastSeq
     && 0 <= a.nowNs - stops.states[a.SessionKey()].lastSeenNs <= DETACH_STOP_WINDOW_NS)
  }

  datatype Outcome = Outcome(memory: Memory, ctrl: Controller, disk: Disk, passed: seq<Disk>, ack: Ack, woke: bool)

  function NoEffect(m: Memory, c: Controller, d: Disk, ack: Ack): Outcome {
    Outcome(m, c, d, [], ack, false)
  }

  /** How the stop table changes once the command has been applied. */
  function NoteApplied(stops: Table, a: Arrival): (r: Table)
    requires stops.Ok() && a.msg.session.Some? && a.msg.seqNo.Some?
    ensures r.Ok()
  {
    match a.msg.command
    case Stop => WithStop(stops, a.SessionKey(), a.msg.seqNo.value, a.nowNs)
    case DetachPress => Forgotten(stops, a.SessionKey())
    case _ => stops
  }

  /** `process_datagram`. */
  function Process(cfg: Config, m: Memory, c: Controller, d: Disk, data: Datagram, peer: Peer, nowNs: int, f: Faults)
    : (r: Outcome)
    requires m.Ok()
    ensures r.memory.Ok()
  {
    match data
    case Garbage => NoEffect(m, c, d, Ack(peer, cfg.role, None, None, NoCommand, false))
    case Json(msg) =>
      var ack := Ack(peer, cfg.role, msg.session, msg.seqNo, msg.command, false);
      if !cfg.Allows(peer.ip) then NoEffect(m, c, d, ack)
      else
        var a := Arrival(msg, cfg.role, peer.ip, nowNs);
        var (sessions, verdict) := Step(cfg.limits, m.sessions, a);
        var m1 := m.(sessions := sessions);
        if !verdict.accepted then NoEffect(m1, c, d, ack)
        else if msg.command.DetachPress? && !Armed(cfg, m.stops, a) then NoEffect(m1, c, d, ack)
        else
          var e := Apply(c, d, msg.command, f);
          var stops := if e.reply.Applied? then NoteApplied(m.stops, a) else m.stops;
          Outcome(m1.(stops := stops), e.ctrl, e.disk, e.passed, ack.(applied := e.reply.Applied?), e.woke)
  }

  class ControlServerCore {
    const cfg: Config
    const controller: GpioRobotController
    const store: DriveLatchStore
    const validator: ProtocolValidator
    var stopStates: map<Key, SessionState>
    var stopOrder: seq<Key>

    ghost predicate Valid()
      reads this, validator
    {
      validator.Valid() && validator.Bounds() == cfg.limits && Table(stopStates, stopOrder).Ok()
    }

    ghost function View(): Memory
      reads this, validator
    {
      Memory(validator.View(), Table(stopStates, stopOrder))
    }

    constructor (cfg: Config, controller: GpioRobotController, store: DriveLatchStore)
      ensures Valid() && View() == FRESH && fresh(validator)
      ensures this.cfg == cfg && this.controller == controller && this.store == store
    {
      this.cfg, this.controller, this.store := cfg, controller, store;
      validator := new ProtocolValidator(cfg.limits.maxTtlMs, cfg.limits.maxSessions);
      stopStates, stopOrder := map[], [];
    }

    method RememberStop(a: Arrival)
      requires Valid() && a.msg.session.Some? && a.msg.seqNo.Some?
      modifies this`stopStates, this`stopOrder
      ensures Valid()
      ensures Table(stopStates, stopOrder) ==
              WithStop(old(Table(stopStates, stopOrder)), a.SessionKey(), a.msg.seqNo.value, a.nowNs)
    {
      hide OldestOf;
      var k := a.SessionKey();
      if k !in stopStates {
        stopOrder := stopOrder + [k];
      }
      stopStates := stopStates[k := SessionState(a.msg.seqNo.value, 0, a.nowNs)];
      assert Table(stopStates, stopOrder) == Put(old(Table(stopStates, stopOrder)), k, stopStates[k]);
      if |stopStates| > MAX_RECENT_STOPS {
        assert k in stopOrder;
        DropOldestStop();
      }
    }

    method DropOldestStop()
      requires Valid() && stopOrder != []
      modifies this`stopStates, this`stopOrder
      ensures Valid()
      ensures var t := old(Table(stopStates, stopOrder)); Table(stopStates, stopOrder) == RemoveAt(t, OldestIndex(t))
    {
      hide OldestOf;
      ghost var t := Table(stopStates, stopOrder);
      var i := OldestIndex(Table(stopStates, stopOrder));
      stopStates, stopOrder := stopStates - {stopOrder[i]}, stopOrder[..i] + stopOrder[i + 1..];
      assert Table(stopStates, stopOrder) == RemoveAt(t, i);
    }

    method ConsumeStop(a: Arrival)
      requires Valid() && a.msg.session.Some?
      modifies this`stopStates, this`stopOrder
      ensures Valid()
      ensures Table(stopStates, stopOrder) == Forgotten(old(Table(stopStates, stopOrder)), a.SessionKey())
    {
      hide OldestOf;
      var k := a.SessionKey();
      if k in stopStates {
        var i := IndexOf(stopOrder, k);
        stopStates, stopOrder := stopStates - {k}, stopOrder[..i] + stopOrder[i + 1..];
      }
    }

    method ProcessDatagram(data: Datagram, peer: Peer, nowNs: int, f: Faults) returns (ack: Ack, ghost woke: bool)
      requires Valid()
      modifies this, validator, controller, store
      ensures Valid()
      ensures var o := Process(cfg, old(View()), old(controller.View()), old(store.disk), data, peer, nowNs, f);
        && View() == o.memory && controller.View() == o.ctrl && store.disk == o.disk
        && store.passed == old(store.passed) + o.passed && ack == o.ack && woke == o.woke
    {
      hide Step, Apply, Remember, IndexOf, Defect, Put;
      woke := false;
      assert store.passed == store.passed + [];
      if data.Garbage? {
        return Ack(peer, cfg.role, None, None, NoCommand, false), false;
      }
      var msg := data.msg;
      ack := Ack(peer, cfg.role, msg.session, msg.seqNo, msg.command, false);
      if !cfg.Allows(peer.ip) {
        return;
      }
      var a := Arrival(msg, cfg.role, peer.ip, nowNs);
      AcceptedParts(cfg.limits, validator.View(), a);
      var verdict := validator.Validate(a);
      if !verdict.accepted {
        return;
      }
      if msg.command.DetachPress? && !Armed(cfg, Table(stopStates, stopOrder), a) {
        return;
      }
      var reply;
      reply, woke := ApplyValidated(controller, store, msg.command, f);
      if reply.Applied? {
        if msg.command.Stop? {
          RememberStop(a);
        } else if msg.command.DetachPress? {
          ConsumeStop(a);
        }
        ack := ack.(applied := true);
      }
    }
  }

  lemma AcceptedParts(l: Limits, t: Table, a: Arrival)
    requires t.Ok()
    ensures Step(l, t, a).1.accepted ==> a.msg.session.Some? && a.msg.seqNo.Some? && a.msg.target == Some(a.role)
  {
    hide Remember, SessionOk;
  }

  // --- Start-up ---------------------------------------------------------------

  datatype StartFaults = StartFaults(read: ReadFault, io: Io, save: WriteFault)

  /** `up` is false when the process exits before opening the control socket. */
  datatype Start = Start(up: bool, ctrl: Controller, disk: Disk, passed: seq<Disk>)

  /** A fresh controller, with the persisted latch restored before the socket opens. */
  function StartUp(role: Role, d: Disk, f: StartFaults): Start {
    var c := Controller(role, true, false, STILL);
    if Load(d, f.read) then Start(true, c, d, [])
    else
      var (c', reply) := Handle(c, RelayHold, f.io);
      if !reply.Applied? then Start(false, c', d, [])
      else
        var saving := Passes(d, WriteFile(d, Saved(false)), f.save);
        Start(true, c', Last(saving), saving)
  }

  method RestorePersistedDriveLatch(controller: GpioRobotController, store: DriveLatchStore, f: StartFaults)
    returns (up: bool)
    requires controller.View() == Controller(controller.role, true, false, STILL)
    modifies controller, store
    ensures var s := StartUp(controller.role, old(store.disk), f);
      && up == s.up && controller.View() == s.ctrl && store.disk == s.disk
      && store.passed == old(store.passed) + s.passed
  {
    var enabled := store.LoadDriveEnabled(f.read);
    if enabled {
      return true;
    }
    var reply := controller.HandleCommand(RelayHold, f.io);
    if !reply.Applied? {
      return false;
    }
    var _ := store.SaveDriveEnabled(false, f.save);
    return true;
  }
}
