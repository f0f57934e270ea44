/**
 The controller side of the detach protocol (controller/mesh_control_client.py):
 numbered sends, acknowledgement matching, and the stop, hold, press sequence.
 */
module MeshControlClient {
  import opened Wrappers
  import opened ControlProtocol
  import opened ControlServer

  /** `CommandRef`: a sent command whose acknowledgement may be awaited. */
  datatype Ref = Ref(seqNo: int, target: Role, command: Command)

  datatype Outgoing = Outgoing(target: Role, msg: Message)

  datatype DetachResult =
    | MissingMapping | ReleasedNotActive | ActuatorNotActive
    | StopUnconfirmed | HoldUnconfirmed | PressUnconfirmed | Completed

  datatype Plan = Plan(released: Role, actuator: Role, active: seq<Role>)

  /** Where `send_detach_release` is; `again` marks the stops sent after a press that was not confirmed. */
  datatype Phase =
    | Ready(last: Option<DetachResult>)
    | SendingStops(plan: Plan, stops: seq<Ref>, again: bool)
    | AwaitingStops(plan: Plan, stops: seq<Ref>, taken: nat, allApplied: bool, again: bool)
    | AwaitingHold(plan: Plan, stops: seq<Ref>, hold: Ref)
    | HoldConfirmed(plan: Plan, stops: seq<Ref>, hold: Ref)
    | AwaitingPress(plan: Plan, stops: seq<Ref>, hold: Ref, press: Ref)

  /** The peer names the socket; sequence numbers are never reused, so they name the waiters. */
  datatype Identity = Identity(session: string, peer: Peer, ttlMs: int)

  datatype Client = Client(id: Identity, seqNo: int, waiters: map<int, Ref>, inbox: map<int, Ack>, phase: Phase)

  function Built(id: Identity, ref: Ref, context: Option<DetachContext>, sentNs: int): Message {
    Message(Some(PROTOCOL_VERSION), true, Some(ref.target), ref.command, Some(id.session), Some(ref.seqNo),
            Some(sentNs), Some(id.ttlMs), NoSpeed, context)
  }

  function NextRef(c: Client, target: Role, command: Command): Ref {
    Ref(c.seqNo + 1, target, command)
  }

  /** `send_one`. */
  function Send(c: Client, target: Role, command: Command, context: Option<DetachContext>, sentNs: int, expectAck: bool)
    : (Client, Outgoing)
  {
    var ref := NextRef(c, target, command);
    (c.(seqNo := ref.seqNo, waiters := if expectAck then c.waiters[ref.seqNo := ref] else c.waiters),
     Outgoing(target, Built(c.id, ref, context, sentNs)))
  }

  /** The acknowledgement receiver keeps the latest one that matches a waiter by session, number and target. */
  function Hears(c: Client, ack: Ack): Client {
    if && ack.session == Some(c.id.session) && ack.seqNo.Some? && ack.seqNo.value in c.waiters
       && ack.from == c.waiters[ack.seqNo.value].target
    then c.(inbox := c.inbox[ack.seqNo.value := ack])
    else c
  }

  /** `wait_applied` when the wait ends, by acknowledgement or by timeout. */
  predicate Confirmed(c: Client, ref: Ref) {
    && ref.seqNo in c.inbox
    && c.inbox[ref.seqNo].command == ref.command
    && c.inbox[ref.seqNo].applied
  }

  function Taken(c: Client, ref: Ref): Client {
    c.(waiters := c.waiters - {ref.seqNo})
  }

  /** The stop receipt of a target: the last one sent, should the target be listed twice. */
  function ReceiptOf(stops: seq<Ref>, target: Role): (r: Option<Ref>)
    ensures r.Some? ==> r.value in stops && r.value.target == target
    ensures r.None? ==> forall s | s in stops :: s.target != target
  {
    if stops == [] then None
    else
      var last := stops[|stops| - 1];
      if last.target == target then Some(last)
      else
        assert stops == stops[..|stops| - 1] + [last];
        ReceiptOf(stops[..|stops| - 1], target)
  }

  function PressContext(plan: Plan, stops: seq<Ref>): DetachContext {
    var receipt := ReceiptOf(stops, plan.actuator);
    DetachContext(Some(plan.released), true, if receipt.Some? then Some(receipt.value.seqNo) else None)
  }

  // --- The client as a state machine --------------------------------------------

  datatype Action =
    | StartDetach(released: Role, active: seq<Role>)
    | SendStop(sentNs: int) | TakeStop
    | SendHold(sentNs: int) | TakeHold
    | SendPress(sentNs: int) | TakePress
    | SendOther(target: Role, command: Command, sentNs: int, expectAck: bool) | TakeOther(ref: Ref)
    | Hear(ack: Ack)
    | Abort

  /** The checks `send_detach_release` makes before it sends anything. */
  function Planned(released: Role, active: seq<Role>): Phase {
    match DetachActuator(released)
    case None => Ready(Some(MissingMapping))
    case Some(actuator) =>
      if released !in active then Ready(Some(ReleasedNotActive))
      else if actuator !in active then Ready(Some(ActuatorNotActive))
      else SendingStops(Plan(released, actuator, active), [], false)
  }

  function AfterStopSent(p: Phase, ref: Ref): Phase
    requires p.SendingStops?
  {
    if |p.stops| + 1 < |p.plan.active| then SendingStops(p.plan, p.stops + [ref], p.again)
    else AwaitingStops(p.plan, p.stops + [ref], 0, true, p.again)
  }

  function AfterStopTaken(p: Phase, applied: bool): Phase
    requires p.AwaitingStops?
  {
    var allApplied := p.allApplied && applied;
    if p.taken + 1 < |p.stops| then AwaitingStops(p.plan, p.stops, p.taken + 1, allApplied, p.again)
    else if p.again then Ready(Some(PressUnconfirmed))
    else if !allApplied then Ready(Some(StopUnconfirmed))
    else AwaitingStops(p.plan, p.stops, p.taken + 1, true, false)
  }

  /** One action; an action that does not fit the phase changes nothing. */
  function Act(c: Client, a: Action): (Client, Option<Outgoing>) {
    var p := c.phase;
    match a
    case StartDetach(released, active) =>
      (if p.Ready? then c.(phase := Planned(released, active)) else c, None)
    case SendStop(ns) =>
      if p.SendingStops? && |p.stops| < |p.plan.active| then
        var target := p.plan.active[|p.stops|];
        var (c', o) := Send(c, target, Stop, None, ns, true);
        (c'.(phase := AfterStopSent(p, NextRef(c, target, Stop))), Some(o))
      else (c, None)
    case TakeStop =>
      if p.AwaitingStops? && p.taken < |p.stops| then
        (Taken(c, p.stops[p.taken]).(phase := AfterStopTaken(p, Confirmed(c, p.stops[p.taken]))), None)
      else (c, None)
    case SendHold(ns) =>
      if p.AwaitingStops? && p.taken == |p.stops| && p.allApplied && !p.again then
        var (c', o) := Send(c, p.plan.released, RelayHold, None, ns, true);
        (c'.(phase := AwaitingHold(p.plan, p.stops, NextRef(c, p.plan.released, RelayHold))), Some(o))
      else (c, None)
    case TakeHold =>
      if p.AwaitingHold? then
        (Taken(c, p.hold).(phase := if Confirmed(c, p.hold) then HoldConfirmed(p.plan, p.stops, p.hold)
                                    else Ready(Some(HoldUnconfirmed))), None)
      else (c, None)
    case SendPress(ns) =>
      if p.HoldConfirmed? then
        var (c', o) := Send(c, p.plan.actuator, DetachPress, Some(PressContext(p.plan, p.stops)), ns, true);
        (c'.(phase := AwaitingPress(p.plan, p.stops, p.hold, NextRef(c, p.plan.actuator, DetachPress))), Some(o))
      else (c, None)
    case TakePress =>
      if p.AwaitingPress? then
        (Taken(c, p.press).(phase := if Confirmed(c, p.press) then Ready(Some(Completed))
                                     else SendingStops(p.plan, [], true)), None)
      else (c, None)
    case SendOther(target, command, ns, expectAck) =>
      var (c', o) := Send(c, target, command, None, ns, expectAck);
      (c', Some(o))
    case TakeOther(ref) => (Taken(c, ref), None)
    case Hear(ack) => (Hears(c, ack), None)
    case Abort => (c.(phase := Ready(None)), None)
  }

  function Run(c: Client, actions: seq<Action>): Client {
    if actions == [] then c
    else Act(Run(c, actions[..|actions| - 1]), actions[|actions| - 1]).0
  }

  /** What a run of actions puts on the wire. */
  function Wire(c: Client, actions: seq<Action>): seq<Outgoing> {
    if actions == [] then []
    else
      var (before, last) := (actions[..|actions| - 1], actions[|actions| - 1]);
      var out := Act(Run(c, before), last).1;
      Wire(c, before) + (if out.Some? then [out.value] else [])
  }

  /** The actions `send_detach_release` is made of once it has begun, and what it hears meanwhile. */
  predicate OfDetach(a: Action) {
    a.SendStop? || a.TakeStop? || a.SendHold? || a.TakeHold? || a.SendPress? || a.TakePress? || a.Hear?
  }

  /** `actions` goes on from `before` with nothing but the actions of one detach. */
  ghost predicate OnlyDetach(before: seq<Action>, actions: seq<Action>) {
    before <= actions && forall i | |before| <= i < |actions| :: OfDetach(actions[i])
  }

  lemma RunStep(c: Client, actions: seq<Action>, a: Action)
    ensures Run(c, actions + [a]) == Act(Run(c, actions), a).0
    ensures Wire(c, actions + [a]) ==
            Wire(c, actions) + (var out := Act(Run(c, actions), a).1; if out.Some? then [out.value] else [])
  {
    hide Act;
    assert (actions + [a])[..|actions|] == actions;
  }

  /** A detach begins exactly for a node with a servo in front of it when both are active; otherwise the first thing amiss is the result. */
  lemma BeginsIff(released: Role, active: seq<Role>)
    ensures var p := Planned(released, active);
      && (p.SendingStops? <==> DetachActuator(released).Some? && released in active && DetachActuator(released).value in active)
      && (p.SendingStops? ==> p.plan == Plan(released, DetachActuator(released).value, active) && p.stops == [] && !p.again)
      && (!p.SendingStops? ==> p == Ready(Some(
            if DetachActuator(released).None? then MissingMapping
            else if released !in active then ReleasedNotActive else ActuatorNotActive)))
  {
  }

  /**
   What each result of a detach that began rests on; an unconfirmed press ends it
   only after every active target was sent another stop and waited for.
   */
  lemma ResultMeans(c: Client, a: Action)
    requires !c.phase.Ready? && Act(c, a).0.phase.Ready? && !a.Abort?
    ensures var p, last := c.phase, Act(c, a).0.phase.last;
      && last.Some?
      && (last == Some(Completed) ==> a.TakePress? && p.AwaitingPress? && Confirmed(c, p.press))
      && (last == Some(HoldUnconfirmed) ==> a.TakeHold? && p.AwaitingHold? && !Confirmed(c, p.hold))
      && (last == Some(StopUnconfirmed) ==> a.TakeStop? && p.AwaitingStops? && !p.again && p.taken + 1 == |p.stops|
                                            && !(p.allApplied && Confirmed(c, p.stops[p.taken])))
      && (last == Some(PressUnconfirmed) ==> a.TakeStop? && p.AwaitingStops? && p.again && p.taken + 1 == |p.stops|)
      && last.value in {Completed, HoldUnconfirmed, StopUnconfirmed, PressUnconfirmed}
  {
  }

  /** The stops sent so far go to the active targets, one each in order. */
  predicate StopsFor(stops: seq<Ref>, active: seq<Role>) {
    |stops| <= |active| && forall i | 0 <= i < |stops| :: stops[i].target == active[i] && stops[i].command == Stop
  }

  predicate StopsSent(p: Phase) {
    match p
    case SendingStops(plan, stops, _) => StopsFor(stops, plan.active)
    case AwaitingStops(plan, stops, _, _, _) => StopsFor(stops, plan.active) && |stops| == |plan.active|
    case _ => true
  }

  /**
   Whatever the controller does, acknowledgements of stops are awaited only once
   every active target was sent one, the first time and again after a press that
   was not confirmed.
   */
  lemma {:induction false} EveryTargetIsSentAStop(c: Client, actions: seq<Action>)
    requires StopsSent(c.phase)
    ensures StopsSent(Run(c, actions).phase)
  {
    if actions != [] {
      var front, last := actions[..|actions| - 1], actions[|actions| - 1];
      EveryTargetIsSentAStop(c, front);
      assert Run(c, actions) == Act(Run(c, front), last).0;
      hide Run, Planned;
      StopsStep(Run(c, front), last);
    }
  }

  lemma StopsStep(c: Client, a: Action)
    requires StopsSent(c.phase)
    ensures StopsSent(Act(c, a).0.phase)
  {
    hide Confirmed, Built, PressContext;
  }

  /** A press that is not confirmed is answered by stopping every active target again. */
  lemma StopsAgain(c: Client)
    requires c.phase.AwaitingPress?
    ensures Act(c, TakePress).0.phase ==
      if Confirmed(c, c.phase.press) then Ready(Some(Completed)) else SendingStops(c.phase.plan, [], true)
  {
  }

  // --- The client object --------------------------------------------------------

  /**
   What the network does during one detach: the acknowledgements heard before
   each wait ends, and the clock at each send.
   */
  datatype Network = Network(heard: nat -> seq<Ack>, clock: nat -> int)

  class ControlTransport {
    const id: Identity
    var seqNo: int
    var waiters: map<int, Ref>
    var inbox: map<int, Ack>
    var wire: seq<Outgoing>
    var waits: nat
    ghost var phase: Phase
    ghost var began: Client
    ghost var actions: seq<Action>

    ghost function View(): Client
      reads this
    {
      Client(id, seqNo, waiters, inbox, phase)
    }

    /** The object has done exactly what the state machine does on the recorded actions. */
    ghost predicate Valid()
      reads this
    {
      View() == Run(began, actions) && wire == Wire(began, actions)
    }

    constructor (id: Identity)
      ensures Valid() && View() == Client(id, 0, map[], map[], Ready(None))
      ensures wire == [] && actions == []
    {
      this.id := id;
      seqNo, waiters, inbox, wire, waits := 0, map[], map[], [], 0;
      phase, began, actions := Ready(None), Client(id, 0, map[], map[], Ready(None)), [];
    }

    ghost method Record(before: Client, a: Action, next: Phase)
      requires before == Run(began, actions)
      requires before == View().(seqNo := before.seqNo, waiters := before.waiters, inbox := before.inbox)
      requires Act(before, a).0 == View().(phase := next)
      requires wire == Wire(began, actions) + (var out := Act(before, a).1; if out.Some? then [out.value] else [])
      modifies this`phase, this`actions
      ensures Valid() && phase == next && actions == old(actions) + [a]
    {
      hide Act;
      RunStep(began, actions, a);
      phase, actions := next, actions + [a];
    }

    method SendOne(target: Role, command: Command, context: Option<DetachContext>, sentNs: int, expectAck: bool)
      returns (ref: Ref)
      modifies this`seqNo, this`waiters, this`wire
      ensures ref == NextRef(old(View()), target, command)
      ensures var (c, o) := Send(old(View()), target, command, context, sentNs, expectAck);
        View() == c && wire == old(wire) + [o]
    {
      seqNo := seqNo + 1;
      ref := Ref(seqNo, target, command);
      if expectAck {
        waiters := waiters[seqNo := ref];
      }
      wire := wire + [Outgoing(target, Built(id, ref, context, sentNs))];
    }

    method Receive(ack: Ack)
      requires Valid()
      modifies this`inbox, this`actions, this`phase
      ensures Valid() && View() == Hears(old(View()), ack) && actions == old(actions) + [Hear(ack)]
    {
      ghost var before := View();
      if ack.session == Some(id.session) && ack.seqNo.Some? && ack.seqNo.value in waiters
         && ack.from == waiters[ack.seqNo.value].target {
        inbox := inbox[ack.seqNo.value := ack];
      }
      Record(before, Hear(ack), phase);
    }

    /** The receiver thread at work while the caller waits. */
    method Listen(net: Network)
      requires Valid()
      modifies this`inbox, this`actions, this`phase, this`waits
      ensures Valid() && phase == old(phase) && OnlyDetach(old(actions), actions)
    {
      var acks := net.heard(waits);
      waits := waits + 1;
      for i := 0 to |acks|
        invariant Valid() && phase == old(phase) && OnlyDetach(old(actions), actions)
      {
        Receive(acks[i]);
      }
    }

    /** The end of `wait_applied`. */
    method WaitApplied(ref: Ref) returns (applied: bool)
      modifies this`waiters
      ensures View() == Taken(old(View()), ref) && applied == Confirmed(old(View()), ref)
    {
      waiters := waiters - {ref.seqNo};
      applied := ref.seqNo in inbox && inbox[ref.seqNo].command == ref.command && inbox[ref.seqNo].applied;
    }

    /** `stop_active_targets_with_refs`: stop every listed target, then wait for all of them. */
    method StopActiveTargets(ghost plan: Plan, active: seq<Role>, net: Network, ghost again: bool)
      returns (ok: bool, refs: seq<Ref>)
      requires Valid() && phase == SendingStops(plan, [], again)
      requires active == plan.active && active != []
      modifies this
      ensures Valid() && began == old(began) && OnlyDetach(old(actions), actions) && old(wire) <= wire
      ensures |refs| == |active| && forall i | 0 <= i < |refs| :: refs[i].target == active[i] && refs[i].command.Stop?
      ensures phase == if again then Ready(Some(PressUnconfirmed))
                       else if ok then AwaitingStops(plan, refs, |refs|, true, false)
                       else Ready(Some(StopUnconfirmed))
    {
      hide Run, Wire;
      refs := [];
      for i := 0 to |active|
        invariant Valid() && began == old(began) && OnlyDetach(old(actions), actions) && old(wire) <= wire
        invariant |refs| == i && forall j | 0 <= j < i :: refs[j].target == active[j] && refs[j].command.Stop?
        invariant phase == if i < |active| then SendingStops(plan, refs, again) else AwaitingStops(plan, refs, 0, true, again)
      {
        ghost var before := View();
        var ns := net.clock(i);
        var ref := SendOne(active[i], Stop, None, ns, true);
        Record(before, SendStop(ns), AfterStopSent(phase, ref));
        refs := refs + [ref];
      }
      ok := true;
      for i := 0 to |refs|
        invariant Valid() && began == old(began) && OnlyDetach(old(actions), actions) && old(wire) <= wire
        invariant phase == if i < |refs| then AwaitingStops(plan, refs, i, ok, again)
                           else if again then Ready(Some(PressUnconfirmed))
                           else if ok then AwaitingStops(plan, refs, |refs|, true, false)
                           else Ready(Some(StopUnconfirmed))
      {
        Listen(net);
        ghost var before := View();
        var applied := WaitApplied(refs[i]);
        Record(before, TakeStop, AfterStopTaken(phase, applied));
        ok := ok && applied;
      }
    }

    /**
     `send_detach_release`: what was sent stays sent, and the object goes on
     from where it was by a run of the state machine that starts a detach of
     `released` among `active`, takes no step that is not part of it, and ends
     with the reported result.
     */
    method SendDetachRelease(released: Role, active: seq<Role>, net: Network) returns (result: DetachResult)
      requires Valid() && phase.Ready?
      modifies this
      ensures Valid() && began == old(began) && old(wire) <= wire
      ensures OnlyDetach(old(actions) + [StartDetach(released, active)], actions)
      ensures phase == Ready(Some(result))
    {
      hide Run, Wire, ReceiptOf;
      Record(View(), StartDetach(released, active), Planned(released, active));
      var actuator := DetachActuator(released);
      if actuator.None? {
        return MissingMapping;
      }
      if released !in active {
        return ReleasedNotActive;
      }
      if actuator.value !in active {
        return ActuatorNotActive;
      }
      ghost var plan := Plan(released, actuator.value, active);
      var stopped, stops := StopActiveTargets(plan, active, net, false);
      if !stopped {
        return StopUnconfirmed;
      }
      var receipt := ReceiptOf(stops, actuator.value);
      assert receipt.Some? by {
        var i :| 0 <= i < |active| && active[i] == actuator.value;
        assert stops[i] in stops && stops[i].target == actuator.value;
      }
      var held := HoldReleased(plan, released, stops, net);
      if !held {
        return HoldUnconfirmed;
      }
      var pressed := PressServo(plan, actuator.value, stops, DetachContext(Some(released), true, Some(receipt.value.seqNo)), net);
      if !pressed {
        var _, _ := StopActiveTargets(plan, active, net, true);
        return PressUnconfirmed;
      }
      return Completed;
    }

    method HoldReleased(ghost plan: Plan, released: Role, ghost stops: seq<Ref>, net: Network) returns (held: bool)
      requires Valid() && phase == AwaitingStops(plan, stops, |stops|, true, false) && released == plan.released
      modifies this
      ensures Valid() && began == old(began) && OnlyDetach(old(actions), actions) && old(wire) <= wire
      ensures if held then phase.HoldConfirmed? && phase.plan == plan && phase.stops == stops
              else phase == Ready(Some(HoldUnconfirmed))
    {
      hide Run, Wire;
      ghost var before := View();
      var ns := net.clock(waits);
      var hold := SendOne(released, RelayHold, None, ns, true);
      Record(before, SendHold(ns), AwaitingHold(plan, stops, hold));
      Listen(net);
      before := View();
      held := WaitApplied(hold);
      Record(before, TakeHold, if held then HoldConfirmed(plan, stops, hold) else Ready(Some(HoldUnconfirmed)));
    }

    method PressServo(ghost plan: Plan, actuator: Role, ghost stops: seq<Ref>, context: DetachContext, net: Network)
      returns (pressed: bool)
      requires Valid() && phase.HoldConfirmed? && phase.plan == plan && phase.stops == stops
      requires actuator == plan.actuator && context == PressContext(plan, stops)
      modifies this
      ensures Valid() && began == old(began) && OnlyDetach(old(actions), actions) && old(wire) <= wire
      ensures phase == if pressed then Ready(Some(Completed)) else SendingStops(plan, [], true)
    {
      hide Run, Wire, ReceiptOf;
      ghost var before := View();
      var ns := net.clock(waits);
      var press := SendOne(actuator, DetachPress, Some(context), ns, true);
      Record(before, SendPress(ns), AwaitingPress(plan, stops, before.phase.hold, press));
      Listen(net);
      before := View();
      pressed := WaitApplied(press);
      Record(before, TakePress, if pressed then Ready(Some(Completed)) else SendingStops(plan, [], true));
    }
  }
}
