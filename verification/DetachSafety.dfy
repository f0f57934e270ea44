/**
 End-to-end safety of a detach: whenever a servo is pressed on the controller's
 orders, every active target had applied its stop, then the released node had
 applied its hold, and that node is still latched unless an enable freed it since.
 */
module DetachSafety {
  import opened Wrappers
  import opened ControlProtocol
  import opened DriveLatch
  import opened ControlServer
  import opened MeshControlClient
  import opened LatchSafety
  import opened DetachSystem

  // --- Invariants ---------------------------------------------------------------

  /** The event is the application of this command. */
  predicate Reports(e: Event, id: Identity, ref: Ref) {
    e.AppliedCommand? && e == AppliedCommand(ref.target, ref.command, id.peer.ip, id.session, ref.seqNo, e.moving)
  }

  /** The event is the one the acknowledgement reports. */
  predicate Answers(e: Event, a: Ack) {
    && e.AppliedCommand? && a.session.Some? && a.seqNo.Some?
    && e == AppliedCommand(a.from, a.command, a.to.ip, a.session.value, a.seqNo.value, e.moving)
  }

  /** A node that acknowledged a stop or a hold stood still. */
  predicate StillWhenStopped(e: Event) {
    e.AppliedCommand? && (e.command.Stop? || Latches(e.command)) ==> e.moving == STILL
  }

  ghost predicate StopsStill(log: seq<Event>) {
    forall i | 0 <= i < |log| :: StillWhenStopped(log[i])
  }

  /** The command was applied by its target before event `n`. */
  ghost predicate AppliedWithin(log: seq<Event>, n: nat, id: Identity, ref: Ref) {
    exists i | 0 <= i < n && i < |log| :: Reports(log[i], id, ref)
  }

  /** Event `h` is a hold (or a drive disable) node `n` applied, and no enable freed `n` after. */
  ghost predicate Held(log: seq<Event>, n: Role, h: nat) {
    && h < |log| && log[h].AppliedCommand? && log[h].node == n && Latches(log[h].command)
    && forall j | h < j < |log| :: log[j] != Freed(n)
  }

  ghost predicate NodesOk(w: World)
    requires Shape(w)
  {
    && (forall r: Role :: w.nodes[r].disk.Ok())
    && (forall r: Role, h: nat :: Held(w.log, r, h) ==> Latched(w.nodes[r]))
  }

  /** Every applied acknowledgement reports an event. */
  ghost predicate AcksHonest(acks: set<Ack>, log: seq<Event>) {
    forall a | a in acks && a.applied :: exists i | 0 <= i < |log| :: Answers(log[i], a)
  }

  predicate IsOwnEvent(id: Identity, e: Event) {
    e.AppliedCommand? && e.ip == id.peer.ip && e.session == id.session
  }

  /** Every event caused by the controller is one it sent earlier. */
  ghost predicate EventsSent(id: Identity, history: map<int, Sent>, log: seq<Event>) {
    forall i | 0 <= i < |log| && IsOwnEvent(id, log[i]) :: EventSent(history, log[i], i)
  }

  predicate EventSent(history: map<int, Sent>, e: Event, i: int)
    requires e.AppliedCommand?
  {
    && e.seqNo in history
    && history[e.seqNo].ref == Ref(e.seqNo, e.node, e.command)
    && history[e.seqNo].at <= i
    && (e.command.DetachPress? ==> history[e.seqNo].context.Some?)
  }

  ghost predicate PacketsSent(id: Identity, history: map<int, Sent>, packets: set<Packet>) {
    forall p | p in packets && IsOwnPacket(id, p) :: PacketSent(history, p.data.msg)
  }

  predicate PacketSent(history: map<int, Sent>, m: Message) {
    && m.seqNo.Some? && m.seqNo.value in history && m.target.Some?
    && history[m.seqNo.value].ref == Ref(m.seqNo.value, m.target.value, m.command)
    && history[m.seqNo.value].context == m.context
  }

  ghost predicate HistoryOk(c: Client, history: map<int, Sent>, log: seq<Event>) {
    && (forall q | q in history :: q <= c.seqNo && history[q].at <= |log| && history[q].ref.seqNo == q)
    && (forall q | q in c.waiters :: q in history && c.waiters[q] == history[q].ref)
  }

  ghost predicate InboxOk(c: Client, history: map<int, Sent>, acks: set<Ack>) {
    forall q | q in c.inbox :: q in history && c.inbox[q] in acks && AckFor(c.id, c.inbox[q], history[q].ref)
  }

  predicate AckFor(id: Identity, a: Ack, ref: Ref) {
    && a.session == Some(id.session) && a.seqNo == Some(ref.seqNo) && a.to == id.peer && a.from == ref.target
  }

  predicate PlanOk(p: Plan) {
    DetachActuator(p.released) == Some(p.actuator) && p.released in p.active && p.actuator in p.active
  }

  ghost predicate SentRef(history: map<int, Sent>, ref: Ref) {
    ref.seqNo in history && history[ref.seqNo].ref == ref
  }

  ghost predicate StopsSent(history: map<int, Sent>, plan: Plan, stops: seq<Ref>) {
    && |stops| <= |plan.active|
    && forall i | 0 <= i < |stops| ::
         stops[i].target == plan.active[i] && stops[i].command.Stop? && SentRef(history, stops[i])
  }

  /** Every active target applied its stop, and only then was the hold sent. */
  ghost predicate StopsThenHold(id: Identity, history: map<int, Sent>, log: seq<Event>, plan: Plan, stops: seq<Ref>, hold: Ref) {
    && PlanOk(plan) && |stops| == |plan.active| && StopsSent(history, plan, stops)
    && SentRef(history, hold) && hold.target == plan.released && hold.command.RelayHold?
    && forall i | 0 <= i < |stops| :: AppliedWithin(log, history[hold.seqNo].at, id, stops[i])
  }

  /** Some node has applied a detach press of the controller. */
  ghost predicate PressApplied(id: Identity, log: seq<Event>) {
    exists i | 0 <= i < |log| :: IsOwnEvent(id, log[i]) && log[i].command.DetachPress?
  }

  lemma PressAppliedGrows(id: Identity, log: seq<Event>, more: seq<Event>)
    requires PressApplied(id, log)
    ensures PressApplied(id, log + more)
  {
    var i :| 0 <= i < |log| && IsOwnEvent(id, log[i]) && log[i].command.DetachPress?;
    assert (log + more)[i] == log[i];
  }

  ghost predicate PhaseOk(id: Identity, history: map<int, Sent>, log: seq<Event>, p: Phase) {
    match p
    case Ready(last) => last == Some(Completed) ==> PressApplied(id, log)
    case SendingStops(plan, stops, _) => PlanOk(plan) && StopsSent(history, plan, stops) && |stops| < |plan.active|
    case AwaitingStops(plan, stops, taken, allApplied, _) =>
      && PlanOk(plan) && StopsSent(history, plan, stops) && |stops| == |plan.active| && taken <= |stops|
      && (allApplied ==> forall i | 0 <= i < taken :: AppliedWithin(log, |log|, id, stops[i]))
    case AwaitingHold(plan, stops, hold) => StopsThenHold(id, history, log, plan, stops, hold)
    case HoldConfirmed(plan, stops, hold) =>
      StopsThenHold(id, history, log, plan, stops, hold) && AppliedWithin(log, |log|, id, hold)
    case AwaitingPress(plan, stops, hold, press) =>
      PlanOk(plan) && SentRef(history, press) && press.command.DetachPress?
  }

  /** Why a press was sent: its stops and then its hold had been applied. */
  ghost predicate PressJustified(id: Identity, history: map<int, Sent>, log: seq<Event>, s: Sent) {
    && s.because.HoldConfirmed?
    && StopsThenHold(id, history, log, s.because.plan, s.because.stops, s.because.hold)
    && AppliedWithin(log, s.at, id, s.because.hold)
    && s.ref.target == s.because.plan.actuator && s.ref.command.DetachPress?
    && s.context == Some(PressContext(s.because.plan, s.because.stops))
  }

  ghost predicate PressesJustified(id: Identity, history: map<int, Sent>, log: seq<Event>) {
    forall q | q in history && history[q].context.Some? :: PressJustified(id, history, log, history[q])
  }

  ghost predicate Inv(w: World) {
    && Shape(w)
    && NodesOk(w)
    && StopsStill(w.log)
    && AcksHonest(w.acks, w.log)
    && EventsSent(w.client.id, w.history, w.log)
    && PacketsSent(w.client.id, w.history, w.packets)
    && HistoryOk(w.client, w.history, w.log)
    && InboxOk(w.client, w.history, w.acks)
    && PhaseOk(w.client.id, w.history, w.log, w.client.phase)
    && PressesJustified(w.client.id, w.history, w.log)
  }

  // --- Growing the log and the history ------------------------------------------

  lemma WithinGrows(log: seq<Event>, more: seq<Event>, n: nat, n': nat, id: Identity, ref: Ref)
    requires AppliedWithin(log, n, id, ref) && n <= n'
    ensures AppliedWithin(log + more, n', id, ref)
  {
    var i :| 0 <= i < n && i < |log| && Reports(log[i], id, ref);
    assert Reports((log + more)[i], id, ref);
  }

  ghost predicate Extends(history: map<int, Sent>, history': map<int, Sent>) {
    forall q | q in history :: q in history' && history'[q] == history[q]
  }

  lemma StopsThenHoldGrows(id: Identity, history: map<int, Sent>, history': map<int, Sent>, log: seq<Event>,
                           more: seq<Event>, plan: Plan, stops: seq<Ref>, hold: Ref)
    requires StopsThenHold(id, history, log, plan, stops, hold) && Extends(history, history')
    ensures StopsThenHold(id, history', log + more, plan, stops, hold)
  {
    forall i | 0 <= i < |stops| ensures AppliedWithin(log + more, history[hold.seqNo].at, id, stops[i]) {
      WithinGrows(log, more, history[hold.seqNo].at, history[hold.seqNo].at, id, stops[i]);
    }
  }

  lemma PhaseGrows(id: Identity, history: map<int, Sent>, history': map<int, Sent>, log: seq<Event>, more: seq<Event>, p: Phase)
    requires PhaseOk(id, history, log, p) && Extends(history, history')
    ensures PhaseOk(id, history', log + more, p)
  {
    hide StopsThenHold, AppliedWithin;
    match p
    case AwaitingStops(plan, stops, taken, allApplied, _) =>
      if allApplied {
        forall i | 0 <= i < taken ensures AppliedWithin(log + more, |log + more|, id, stops[i]) {
          WithinGrows(log, more, |log|, |log + more|, id, stops[i]);
        }
      }
    case AwaitingHold(plan, stops, hold) =>
      StopsThenHoldGrows(id, history, history', log, more, plan, stops, hold);
    case HoldConfirmed(plan, stops, hold) =>
      StopsThenHoldGrows(id, history, history', log, more, plan, stops, hold);
      WithinGrows(log, more, |log|, |log + more|, id, hold);
    case Ready(last) =>
      if last == Some(Completed) {
        PressAppliedGrows(id, log, more);
      }
    case SendingStops(_, _, _) =>
    case AwaitingPress(_, _, _, _) =>
  }

  lemma JustificationGrows(id: Identity, history: map<int, Sent>, history': map<int, Sent>, log: seq<Event>, more: seq<Event>, s: Sent)
    requires PressJustified(id, history, log, s) && Extends(history, history')
    ensures PressJustified(id, history', log + more, s)
  {
    hide StopsThenHold, AppliedWithin, ReceiptOf;
    StopsThenHoldGrows(id, history, history', log, more, s.because.plan, s.because.stops, s.because.hold);
    WithinGrows(log, more, s.at, s.at, id, s.because.hold);
  }

  // --- Steps of the controller ----------------------------------------------------

  lemma ActFacts(c: Client, a: Action)
    ensures var (c', out) := Act(c, a);
      && c'.id == c.id
      && (out.None? ==> c'.seqNo == c.seqNo && forall q | q in c'.waiters :: q in c.waiters && c'.waiters[q] == c.waiters[q])
      && (out.Some? ==>
            var ref := Ref(c.seqNo + 1, out.value.target, out.value.msg.command);
            && c'.seqNo == c.seqNo + 1
            && (exists ns :: out.value.msg == Built(c.id, ref, out.value.msg.context, ns))
            && (forall q | q in c'.waiters ::
                  if q == ref.seqNo then c'.waiters[q] == ref || (q in c.waiters && c'.waiters[q] == c.waiters[q])
                  else q in c.waiters && c'.waiters[q] == c.waiters[q])
            && (out.value.msg.context.Some? ==>
                  && c.phase.HoldConfirmed?
                  && ref.target == c.phase.plan.actuator && ref.command.DetachPress?
                  && out.value.msg.context == Some(PressContext(c.phase.plan, c.phase.stops))))
      && (!a.Hear? ==> c'.inbox == c.inbox)
      && (a.Hear? ==> c' == Hears(c, a.ack) && out.None?)
  {
    hide ReceiptOf, Planned, AfterStopSent, AfterStopTaken;
    var out := Act(c, a).1;
    if out.Some? {
      var m := out.value.msg;
      assert m == Built(c.id, Ref(c.seqNo + 1, out.value.target, m.command), m.context, m.sentNs.value);
    }
  }

  ghost predicate ClientInv(w: World) {
    && PacketsSent(w.client.id, w.history, w.packets)
    && HistoryOk(w.client, w.history, w.log)
    && InboxOk(w.client, w.history, w.acks)
  }

  lemma ClientBooks(w: World, a: Action)
    requires ClientInv(w)
    ensures ClientInv(ClientStep(w, a)) && Extends(w.history, ClientStep(w, a).history)
  {
    hide Act, Built;
    ActFacts(w.client, a);
    if a.Hear? {
      HearBooks(w, a.ack);
    } else if Act(w.client, a).1.Some? {
      SendBooks(w, a);
    } else {
      var w' := ClientStep(w, a);
      assert PacketsSent(w'.client.id, w'.history, w'.packets);
      assert HistoryOk(w'.client, w'.history, w'.log);
      assert InboxOk(w'.client, w'.history, w'.acks);
    }
  }

  lemma HearBooks(w: World, ack: Ack)
    requires ClientInv(w)
    ensures ClientInv(ClientStep(w, Hear(ack))) && ClientStep(w, Hear(ack)).history == w.history
  {
  }

  lemma SendBooks(w: World, a: Action)
    requires ClientInv(w) && Act(w.client, a).1.Some? && !a.Hear?
    ensures ClientInv(ClientStep(w, a)) && Extends(w.history, ClientStep(w, a).history)
  {
    hide Act;
    ActFacts(w.client, a);
    var w' := ClientStep(w, a);
    assert w.client.seqNo + 1 !in w.history;
    forall p | p in w'.packets && IsOwnPacket(w.client.id, p) ensures PacketSent(w'.history, p.data.msg) {
      if p in w.packets {
        assert PacketSent(w.history, p.data.msg);
      }
    }
  }

  lemma ConfirmedMeansApplied(w: World, ref: Ref)
    requires AcksHonest(w.acks, w.log) && InboxOk(w.client, w.history, w.acks) && SentRef(w.history, ref)
    requires Confirmed(w.client, ref)
    ensures AppliedWithin(w.log, |w.log|, w.client.id, ref)
  {
    var a := w.client.inbox[ref.seqNo];
    assert AckFor(w.client.id, a, ref);
    var i :| 0 <= i < |w.log| && Answers(w.log[i], a);
    assert Reports(w.log[i], w.client.id, ref);
  }

  /** The phase after an action is again backed by what was sent and applied. */
  lemma ClientPhase(w: World, a: Action)
    requires ClientInv(w) && AcksHonest(w.acks, w.log)
    requires PhaseOk(w.client.id, w.history, w.log, w.client.phase)
    ensures var w' := ClientStep(w, a); PhaseOk(w'.client.id, w'.history, w'.log, w'.client.phase)
  {
    ClientBooks(w, a);
    assert w.log + [] == w.log;
    PhaseGrows(w.client.id, w.history, ClientStep(w, a).history, w.log, [], w.client.phase);
    match a
    case SendStop(_) => SendStopPhase(w, a);
    case TakeStop => TakeStopPhase(w);
    case SendHold(_) => SendHoldPhase(w, a);
    case TakeHold => TakeHoldPhase(w);
    case StartDetach(_, _) =>
    case SendPress(_) => SendPressPhase(w, a);
    case TakePress => TakePressPhase(w);
    case _ =>
  }

  lemma TakePressPhase(w: World)
    requires ClientInv(w) && AcksHonest(w.acks, w.log)
    requires PhaseOk(w.client.id, w.history, w.log, w.client.phase)
    ensures var w' := ClientStep(w, TakePress); PhaseOk(w'.client.id, w'.history, w'.log, w'.client.phase)
  {
    hide StopsThenHold, AcksHonest, InboxOk;
    var p := w.client.phase;
    if p.AwaitingPress? && Confirmed(w.client, p.press) {
      ConfirmedMeansApplied(w, p.press);
      var i :| 0 <= i < |w.log| && Reports(w.log[i], w.client.id, p.press);
      assert IsOwnEvent(w.client.id, w.log[i]) && w.log[i].command.DetachPress?;
    }
  }

  lemma SendStopPhase(w: World, a: Action)
    requires ClientInv(w) && a.SendStop?
    requires PhaseOk(w.client.id, w.history, w.log, w.client.phase)
    ensures var w' := ClientStep(w, a); PhaseOk(w'.client.id, w'.history, w'.log, w'.client.phase)
  {
    hide StopsThenHold, AppliedWithin;
    var p, w' := w.client.phase, ClientStep(w, a);
    if p.SendingStops? {
      var ref := NextRef(w.client, p.plan.active[|p.stops|], Stop);
      assert Extends(w.history, w'.history) && SentRef(w'.history, ref);
      assert StopsSent(w'.history, p.plan, p.stops + [ref]);
    }
  }

  lemma TakeStopPhase(w: World)
    requires ClientInv(w) && AcksHonest(w.acks, w.log)
    requires PhaseOk(w.client.id, w.history, w.log, w.client.phase)
    ensures var w' := ClientStep(w, TakeStop); PhaseOk(w'.client.id, w'.history, w'.log, w'.client.phase)
  {
    hide StopsThenHold, AppliedWithin, AcksHonest, InboxOk;
    var p := w.client.phase;
    if p.AwaitingStops? && p.taken < |p.stops| && Confirmed(w.client, p.stops[p.taken]) {
      ConfirmedMeansApplied(w, p.stops[p.taken]);
    }
  }

  lemma SendHoldPhase(w: World, a: Action)
    requires ClientInv(w) && a.SendHold?
    requires PhaseOk(w.client.id, w.history, w.log, w.client.phase)
    ensures var w' := ClientStep(w, a); PhaseOk(w'.client.id, w'.history, w'.log, w'.client.phase)
  {
    hide AppliedWithin;
  }

  lemma TakeHoldPhase(w: World)
    requires ClientInv(w) && AcksHonest(w.acks, w.log)
    requires PhaseOk(w.client.id, w.history, w.log, w.client.phase)
    ensures var w' := ClientStep(w, TakeHold); PhaseOk(w'.client.id, w'.history, w'.log, w'.client.phase)
  {
    hide AppliedWithin, AcksHonest, InboxOk;
    var p := w.client.phase;
    if p.AwaitingHold? && Confirmed(w.client, p.hold) {
      ConfirmedMeansApplied(w, p.hold);
    }
  }

  lemma SendPressPhase(w: World, a: Action)
    requires ClientInv(w) && a.SendPress?
    requires PhaseOk(w.client.id, w.history, w.log, w.client.phase)
    ensures var w' := ClientStep(w, a); PhaseOk(w'.client.id, w'.history, w'.log, w'.client.phase)
  {
    hide AppliedWithin, ReceiptOf;
  }

  lemma ClientPresses(w: World, a: Action)
    requires ClientInv(w)
    requires PhaseOk(w.client.id, w.history, w.log, w.client.phase)
    requires PressesJustified(w.client.id, w.history, w.log)
    ensures var w' := ClientStep(w, a); PressesJustified(w'.client.id, w'.history, w'.log)
  {
    hide Act, StopsThenHold, AppliedWithin, PressJustified;
    ClientBooks(w, a);
    ActFacts(w.client, a);
    assert w.log + [] == w.log;
    var w' := ClientStep(w, a);
    assert Act(w.client, a).1.None? ==> w'.history == w.history;
    forall q | q in w'.history && w'.history[q].context.Some?
      ensures PressJustified(w.client.id, w'.history, w.log, w'.history[q])
    {
      if q in w.history {
        JustificationGrows(w.client.id, w.history, w'.history, w.log, [], w.history[q]);
      } else {
        NewPressJustified(w, a);
      }
    }
  }

  lemma NewPressJustified(w: World, a: Action)
    requires ClientInv(w) && PhaseOk(w.client.id, w.history, w.log, w.client.phase)
    requires var (c, out) := Act(w.client, a); out.Some? && out.value.msg.context.Some?
    requires !a.Hear?
    ensures var w' := ClientStep(w, a); PressJustified(w.client.id, w'.history, w.log, w'.history[w'.client.seqNo])
  {
    hide Act, StopsThenHold, AppliedWithin, ReceiptOf, PacketsSent, InboxOk;
    ActFacts(w.client, a);
    ClientBooks(w, a);
    assert w.log + [] == w.log;
    var p, w' := w.client.phase, ClientStep(w, a);
    StopsThenHoldGrows(w.client.id, w.history, w'.history, w.log, [], p.plan, p.stops, p.hold);
  }

  lemma ClientKeepsInv(w: World, a: Action)
    requires Inv(w)
    ensures Inv(ClientStep(w, a))
  {
    hide PhaseOk, PressesJustified, AcksHonest, PacketsSent, HistoryOk, InboxOk;
    assert ClientInv(w);
    ClientBooks(w, a);
    ClientPhase(w, a);
    ClientPresses(w, a);
    ActFacts(w.client, a);
    hide Act;
  }

  // --- Steps of the nodes ---------------------------------------------------------

  /** Growing the log alone keeps everything the controller relies on. */
  lemma LogGrows(w: World, w': World, more: seq<Event>)
    requires w'.client == w.client && w'.history == w.history && w'.packets == w.packets && w'.log == w.log + more
    requires w.acks <= w'.acks
    requires ClientInv(w) && PhaseOk(w.client.id, w.history, w.log, w.client.phase)
    requires PressesJustified(w.client.id, w.history, w.log)
    ensures ClientInv(w') && PhaseOk(w.client.id, w.history, w'.log, w.client.phase)
    ensures PressesJustified(w.client.id, w.history, w'.log)
  {
    hide PhaseOk, PressJustified;
    PhaseGrows(w.client.id, w.history, w.history, w.log, more, w.client.phase);
    forall q | q in w.history && w.history[q].context.Some?
      ensures PressJustified(w.client.id, w.history, w'.log, w.history[q])
    {
      JustificationGrows(w.client.id, w.history, w.history, w.log, more, w.history[q]);
    }
  }

  lemma DeliverEvents(w: World, p: Packet, nowNs: int, f: Faults)
    requires Inv(w) && p in w.packets && w.nodes[p.to].Up?
    ensures var o := ProcessedBy(w, p, nowNs, f);
      && EventsSent(w.client.id, w.history, w.log + Happened(p.to, w.nodes[p.to].ctrl, p, f, o))
      && AcksHonest(w.acks + {o.ack}, w.log + Happened(p.to, w.nodes[p.to].ctrl, p, f, o))
      && StopsStill(w.log + Happened(p.to, w.nodes[p.to].ctrl, p, f, o))
  {
    hide Process, PhaseOk, PressesJustified, InboxOk, Secure, Frees;
    var n := w.nodes[p.to];
    AppliedFacts(w.cfg[p.to], n.memory, n.ctrl, n.disk, p.data, p.peer, nowNs, f);
    var o := ProcessedBy(w, p, nowNs, f);
    var log' := w.log + Happened(p.to, w.nodes[p.to].ctrl, p, f, o);
    if o.ack.applied {
      var e := AppliedCommand(p.to, p.data.msg.command, p.peer.ip, p.data.msg.session.value, p.data.msg.seqNo.value, o.ctrl.motion);
      assert log'[|log'| - 1] == e;
      assert Answers(e, o.ack) && StillWhenStopped(e);
      if IsOwnEvent(w.client.id, e) {
        assert IsOwnPacket(w.client.id, p);
        assert PacketSent(w.history, p.data.msg);
        assert EventSent(w.history, e, |log'| - 1);
      }
    }
    forall i | 0 <= i < |log'| && IsOwnEvent(w.client.id, log'[i]) ensures EventSent(w.history, log'[i], i) {
      if i < |w.log| {
        assert EventSent(w.history, w.log[i], i);
      }
    }
    AnswersGrow(w.acks, w.log, Happened(p.to, w.nodes[p.to].ctrl, p, f, o));
    forall a | a in w.acks + {o.ack} && a.applied ensures exists i | 0 <= i < |log'| :: Answers(log'[i], a) {
      if a !in w.acks {
        assert Answers(log'[|log'| - 1], a);
      }
    }
  }

  lemma AnswersGrow(acks: set<Ack>, log: seq<Event>, more: seq<Event>)
    requires AcksHonest(acks, log)
    ensures AcksHonest(acks, log + more)
  {
    hide Answers;
    forall a | a in acks && a.applied ensures exists i | 0 <= i < |log + more| :: Answers((log + more)[i], a) {
      var i :| 0 <= i < |log| && Answers(log[i], a);
      assert Answers((log + more)[i], a);
    }
  }

  /** Events of one step: holds that stand afterwards. */
  lemma DeliverHolds(w: World, p: Packet, nowNs: int, f: Faults)
    requires Shape(w) && NodesOk(w) && w.nodes[p.to].Up?
    ensures var o := ProcessedBy(w, p, nowNs, f);
      var log' := w.log + Happened(p.to, w.nodes[p.to].ctrl, p, f, o);
      && o.disk.Ok() && o.ctrl.role == p.to
      && (forall r: Role, h: nat :: Held(log', r, h) ==>
            if r == p.to then Latched(Up(o.memory, o.ctrl, o.disk)) else Latched(w.nodes[r]))
  {
    hide Process, CouldWake, Frees;
    var n := w.nodes[p.to];
    AppliedFacts(w.cfg[p.to], n.memory, n.ctrl, n.disk, p.data, p.peer, nowNs, f);
    var o := ProcessedBy(w, p, nowNs, f);
    var more := Happened(p.to, n.ctrl, p, f, o);
    var log' := w.log + more;
    assert o.woke && Frees(n.ctrl, f) ==> Freed(p.to) in more by {
      if o.woke && Frees(n.ctrl, f) {
        assert more[0] == Freed(p.to);
      }
    }
    forall r: Role, h: nat | Held(log', r, h)
      ensures if r == p.to then Latched(Up(o.memory, o.ctrl, o.disk)) else Latched(w.nodes[r])
    {
      if h < |w.log| {
        HeldEarlier(w.log, more, r, h);
        if r == p.to {
          StaysLatchedUnlessFreed(w.cfg[r], n.memory, n.ctrl, n.disk, p.data, p.peer, nowNs, f);
        }
      } else {
        assert log'[h] == more[h - |w.log|];
      }
    }
  }

  lemma HeldEarlier(log: seq<Event>, more: seq<Event>, r: Role, h: nat)
    requires Held(log + more, r, h) && h < |log|
    ensures Held(log, r, h)
    ensures Freed(r) !in more
  {
    assert (log + more)[h] == log[h];
    forall j | h < j < |log| ensures log[j] != Freed(r) {
      assert (log + more)[j] == log[j];
    }
    forall e | e in more ensures e != Freed(r) {
      var j :| 0 <= j < |more| && more[j] == e;
      assert (log + more)[|log| + j] == e;
    }
  }

  lemma DeliverKeepsInv(w: World, p: Packet, nowNs: int, f: Faults)
    requires Inv(w)
    ensures Inv(DetachSystem.Step(w, Deliver(p, nowNs, f)))
  {
    hide Process, PhaseOk, PressesJustified, PacketsSent, HistoryOk, InboxOk, EventsSent, AcksHonest, StopsStill, Held, Latched, Happened;
    if p in w.packets && w.nodes[p.to].Up? {
      var w' := DetachSystem.Step(w, Deliver(p, nowNs, f));
      DeliverEvents(w, p, nowNs, f);
      DeliverHolds(w, p, nowNs, f);
      LogGrows(w, w', Happened(p.to, w.nodes[p.to].ctrl, p, f, ProcessedBy(w, p, nowNs, f)));
    }
  }

  /** Changing one node without an event other than a wake keeps the invariant if a latched node stays latched. */
  lemma NodeChangeKeepsInv(w: World, w': World, r: Role, n: NodeState, more: seq<Event>)
    requires Inv(w) && w' == w.(nodes := w.nodes[r := n], log := w.log + more)
    requires n.disk.Ok() && (n.Up? ==> n.memory.Ok() && n.ctrl.role == r)
    requires more == [] || more == [Freed(r)]
    requires more == [] && Latched(w.nodes[r]) ==> Latched(n)
    ensures Inv(w')
  {
    hide PhaseOk, PressesJustified, PacketsSent, HistoryOk, InboxOk, Latched, Held, EventsSent, AcksHonest, StopsStill;
    LogGrows(w, w', more);
    WakesAreNotCommands(w, r, more);
    assert more != [] ==> Freed(r) in more;
    forall s: Role, h: nat | Held(w'.log, s, h) ensures Latched(w'.nodes[s]) {
      HeldBefore(w.log, r, more, s, h);
      HeldEarlier(w.log, more, s, h);
    }
  }

  lemma HeldBefore(log: seq<Event>, r: Role, more: seq<Event>, s: Role, h: nat)
    requires (more == [] || more == [Freed(r)]) && Held(log + more, s, h)
    ensures h < |log|
  {
  }

  /** A wake-up is no applied command: what was honest stays honest. */
  lemma WakesAreNotCommands(w: World, r: Role, more: seq<Event>)
    requires EventsSent(w.client.id, w.history, w.log) && AcksHonest(w.acks, w.log) && (more == [] || more == [Freed(r)])
    requires StopsStill(w.log)
    ensures EventsSent(w.client.id, w.history, w.log + more) && AcksHonest(w.acks, w.log + more) && StopsStill(w.log + more)
  {
    AnswersGrow(w.acks, w.log, more);
    var log' := w.log + more;
    forall i | 0 <= i < |log'| && IsOwnEvent(w.client.id, log'[i]) ensures EventSent(w.history, log'[i], i) {
      assert i < |w.log|;
    }
  }

  lemma CrashInsideKeepsInv(w: World, p: Packet, nowNs: int, f: Faults, at: nat, left: Disk)
    requires Inv(w)
    ensures Inv(DetachSystem.Step(w, CrashInside(p, nowNs, f, at, left)))
  {
    hide Process, PhaseOk, PressesJustified, PacketsSent, HistoryOk, InboxOk, EventsSent, AcksHonest, StopsStill, Held, BeforeUnlink, Unlinks, CouldWake;
    var w' := DetachSystem.Step(w, CrashInside(p, nowNs, f, at, left));
    if w' != w {
      var n, o := w.nodes[p.to], ProcessedBy(w, p, nowNs, f);
      AppliedFacts(w.cfg[p.to], n.memory, n.ctrl, n.disk, p.data, p.peer, nowNs, f);
      var more := FreedByCrash(p.to, n, f, o, at);
      if more == [] && Latched(n) {
        CrashInsideSecure(w.cfg[p.to], n.memory, n.ctrl, n.disk, p.data, p.peer, nowNs, f, at);
        SecureDoesNotLoad(o.passed[at], left, Readable);
      }
      NodeChangeKeepsInv(w, w', p.to, Down(left), more);
    }
  }

  lemma CrashKeepsInv(w: World, r: Role, left: Disk)
    requires Inv(w)
    ensures Inv(DetachSystem.Step(w, Crash(r, left)))
  {
    hide PhaseOk, PressesJustified, PacketsSent, HistoryOk, InboxOk, EventsSent, AcksHonest, StopsStill, Held, CouldWake;
    if MayLeave(w.nodes[r].disk, left) {
      if Latched(w.nodes[r]) {
        SecureDoesNotLoad(w.nodes[r].disk, left, Readable);
      }
      assert w.log + [] == w.log;
      NodeChangeKeepsInv(w, DetachSystem.Step(w, Crash(r, left)), r, Down(left), []);
    }
  }

  lemma StartKeepsInv(w: World, r: Role, f: StartFaults)
    requires Inv(w)
    ensures Inv(DetachSystem.Step(w, StartNode(r, f)))
  {
    hide PhaseOk, PressesJustified, PacketsSent, HistoryOk, InboxOk, EventsSent, AcksHonest, StopsStill, Held, CouldWake, StartUp;
    if w.nodes[r].Down? {
      var s := StartUp(r, w.nodes[r].disk, f);
      StartFacts(r, w.nodes[r].disk, f);
      assert w.log + [] == w.log;
      NodeChangeKeepsInv(w, DetachSystem.Step(w, StartNode(r, f)), r,
                         if s.up then Up(FRESH, s.ctrl, s.disk) else Down(s.disk), []);
    }
  }

  lemma CrashStartingKeepsInv(w: World, r: Role, f: StartFaults, at: nat, left: Disk)
    requires Inv(w)
    ensures Inv(DetachSystem.Step(w, CrashStarting(r, f, at, left)))
  {
    hide PhaseOk, PressesJustified, PacketsSent, HistoryOk, InboxOk, EventsSent, AcksHonest, StopsStill, Held, CouldWake, StartUp;
    var w' := DetachSystem.Step(w, CrashStarting(r, f, at, left));
    if w.nodes[r].Down? {
      var s := StartUp(r, w.nodes[r].disk, f);
      StartFacts(r, w.nodes[r].disk, f);
      if at < |s.passed| && MayLeave(s.passed[at], left) {
        if Latched(w.nodes[r]) {
          SecureDoesNotLoad(s.passed[at], left, Readable);
        }
        assert w.log + [] == w.log;
        NodeChangeKeepsInv(w, w', r, Down(left), []);
      }
    }
  }

  lemma OtherStepsKeepInv(w: World, l: Label)
    requires Inv(w) && (l.ForeignSend? || l.LoopDies?)
    ensures Inv(DetachSystem.Step(w, l))
  {
    hide PhaseOk, PressesJustified, HistoryOk, InboxOk, EventsSent, AcksHonest, StopsStill, Held, CouldWake;
    match l
    case ForeignSend(p) =>
    case LoopDies(r) =>
      if w.nodes[r].Up? {
        assert w.log + [] == w.log;
        NodeChangeKeepsInv(w, DetachSystem.Step(w, l), r, w.nodes[r].(ctrl := FailClosed(w.nodes[r].ctrl)), []);
      }
  }

  lemma StepKeepsInv(w: World, l: Label)
    requires Inv(w)
    ensures Inv(DetachSystem.Step(w, l))
  {
    match l
    case ClientActs(a) => ClientKeepsInv(w, a);
    case Deliver(p, nowNs, f) => DeliverKeepsInv(w, p, nowNs, f);
    case CrashInside(p, nowNs, f, at, left) => CrashInsideKeepsInv(w, p, nowNs, f, at, left);
    case Crash(r, left) => CrashKeepsInv(w, r, left);
    case StartNode(r, f) => StartKeepsInv(w, r, f);
    case CrashStarting(r, f, at, left) => CrashStartingKeepsInv(w, r, f, at, left);
    case ForeignSend(_) => OtherStepsKeepInv(w, l);
    case LoopDies(_) => OtherStepsKeepInv(w, l);
  }

  // --- Runs -----------------------------------------------------------------------

  ghost function Reached(w: World, run: seq<Label>): (r: World)
    requires Initial(w)
    ensures Inv(r)
  {
    if run == [] then
      InitialInv(w);
      w
    else
      var before := Reached(w, run[..|run| - 1]);
      StepKeepsInv(before, run[|run| - 1]);
      DetachSystem.Step(before, run[|run| - 1])
  }

  lemma InitialInv(w: World)
    requires Initial(w)
    ensures Inv(w)
  {
  }

  /** All a detach press needs to have happened: the stops, and then the hold at event `h`, before event `p`. */
  ghost predicate Preceded(w: World, p: nat, plan: Plan, stops: seq<Ref>, h: nat)
    requires Shape(w) && p < |w.log| && w.log[p].AppliedCommand?
  {
    && h < p
    && PlanOk(plan) && w.log[p].node == plan.actuator
    && |stops| == |plan.active|
    && (forall i | 0 <= i < |stops| ::
          stops[i].target == plan.active[i] && stops[i].command.Stop? && StoodStillWithin(w.log, h, w.client.id, stops[i]))
    && IsOwnEvent(w.client.id, w.log[h]) && w.log[h].node == plan.released && w.log[h].command.RelayHold? && w.log[h].moving == STILL
  }

  /** The command was applied before event `n`, and its node stood still when it acknowledged it. */
  ghost predicate StoodStillWithin(log: seq<Event>, n: nat, id: Identity, ref: Ref) {
    exists i | 0 <= i < n && i < |log| :: Reports(log[i], id, ref) && log[i].moving == STILL
  }

  lemma StopStoodStill(log: seq<Event>, n: nat, id: Identity, ref: Ref)
    requires StopsStill(log) && AppliedWithin(log, n, id, ref) && ref.command.Stop?
    ensures StoodStillWithin(log, n, id, ref)
  {
    var i :| 0 <= i < n && i < |log| && Reports(log[i], id, ref);
    assert StillWhenStopped(log[i]);
  }

  ghost predicate FreedSince(log: seq<Event>, n: Role, h: nat) {
    exists j | h < j < |log| :: log[j] == Freed(n)
  }

  /**
   Detach safety.  In every run, a detach press a node applied for the
   controller was preceded by an applied stop on every active target, each of
   which stood still when it acknowledged it, and then by an applied hold on the
   node whose release the pressed servo performs; and that node is latched off,
   even while down and after any restart, unless since then an enable was
   applied, or unlinked its marker and was not taken back.
   */
  lemma DetachIsSafe(w0: World, run: seq<Label>, p: nat) returns (plan: Plan, stops: seq<Ref>, h: nat)
    requires Initial(w0)
    requires var w := Reached(w0, run);
      p < |w.log| && IsOwnEvent(w.client.id, w.log[p]) && w.log[p].command.DetachPress?
    ensures var w := Reached(w0, run);
      && Preceded(w, p, plan, stops, h)
      && (FreedSince(w.log, plan.released, h) || Latched(w.nodes[plan.released]))
  {
    plan, stops, h := PressIsSafe(Reached(w0, run), p);
  }

  /** A detach the controller reports completed was pressed: some node applied the press, so `DetachIsSafe` speaks of it. */
  lemma CompletedWasPressed(w0: World, run: seq<Label>) returns (p: nat)
    requires Initial(w0) && Reached(w0, run).client.phase == Ready(Some(Completed))
    ensures var w := Reached(w0, run); p < |w.log| && IsOwnEvent(w.client.id, w.log[p]) && w.log[p].command.DetachPress?
  {
    var w := Reached(w0, run);
    assert PressApplied(w.client.id, w.log);
    hide Reached, Inv;
    p :| 0 <= p < |w.log| && IsOwnEvent(w.client.id, w.log[p]) && w.log[p].command.DetachPress?;
  }

  lemma PressIsSafe(w: World, p: nat) returns (plan: Plan, stops: seq<Ref>, h: nat)
    requires Inv(w) && p < |w.log| && IsOwnEvent(w.client.id, w.log[p]) && w.log[p].command.DetachPress?
    ensures Preceded(w, p, plan, stops, h)
    ensures FreedSince(w.log, plan.released, h) || Latched(w.nodes[plan.released])
  {
    hide PhaseOk, PacketsSent, InboxOk, AcksHonest, Latched, PressContext, HistoryOk, AppliedWithin, StopsSent;
    var id := w.client.id;
    assert EventSent(w.history, w.log[p], p);
    var s := w.history[w.log[p].seqNo];
    assert PressJustified(id, w.history, w.log, s);
    plan, stops := s.because.plan, s.because.stops;
    h := HoldBefore(w, s);
    assert StillWhenStopped(w.log[h]);
    forall i | 0 <= i < |stops| ensures StoodStillWithin(w.log, h, id, stops[i]) {
      StopStoodStill(w.log, h, id, stops[i]);
    }
    hide StopsStill, StoodStillWithin;
    if !FreedSince(w.log, plan.released, h) {
      assert Held(w.log, plan.released, h);
    }
  }

  /** The applied hold behind a press, after the applied stops. */
  lemma HoldBefore(w: World, s: Sent) returns (h: nat)
    requires EventsSent(w.client.id, w.history, w.log) && PressJustified(w.client.id, w.history, w.log, s)
    ensures h < s.at && h < |w.log|
    ensures IsOwnEvent(w.client.id, w.log[h])
    ensures w.log[h].node == s.because.plan.released && w.log[h].command.RelayHold?
    ensures |s.because.stops| == |s.because.plan.active|
    ensures forall i | 0 <= i < |s.because.stops| ::
      && s.because.stops[i].target == s.because.plan.active[i] && s.because.stops[i].command.Stop?
      && AppliedWithin(w.log, h, w.client.id, s.because.stops[i])
  {
    hide ReceiptOf;
    var stops, hold := s.because.stops, s.because.hold;
    var i :| 0 <= i < s.at && i < |w.log| && Reports(w.log[i], w.client.id, hold);
    h := i;
    assert EventSent(w.history, w.log[h], h);
    forall i | 0 <= i < |stops| ensures AppliedWithin(w.log, h, w.client.id, stops[i]) {
      assert AppliedWithin(w.log, w.history[hold.seqNo].at, w.client.id, stops[i]);
    }
  }

  /**
   What being latched means.  A node that is up stays latched with its wheels
   still under every command but an enable, whatever the command becomes on
   that node; a drive command is rejected or, where the node turns it into a
   stop, stops.  A node that is down starts up latched and still.
   */
  lemma LatchedNodeStaysOff(n: NodeState, command: Command, io: Io, left: Disk, f: StartFaults, role: Role)
    requires Latched(n) && MayLeave(n.disk, left)
    requires n.Up? ==> n.ctrl.role == role
    ensures n.Up? && !command.DriveEnable? ==> !Handle(n.ctrl, command, io).0.enabled && Handle(n.ctrl, command, io).0.motion == STILL
    ensures n.Up? && command.Drive? ==> Handle(n.ctrl, command, io) == (n.ctrl, Rejected) || Normalized(role, command).Stop?
    ensures !StartUp(role, left, f).ctrl.enabled && StartUp(role, left, f).ctrl.motion == STILL
  {
    hide CouldWake;
    if n.Up? && !command.DriveEnable? {
      LatchedRejectsDrive(n.ctrl, command, io);
    }
    SecureDoesNotLoad(n.disk, left, f.read);
    SecureStart(role, left, f);
  }

  /**
   An acknowledged hold or drive disable lasts: in every run, across crashes and
   failing writes, the node that acknowledged it is latched, up or down, unless
   it was freed by an enable after it applied it.
   */
  lemma AcknowledgedHoldLasts(w0: World, run: seq<Label>, a: Ack) returns (h: nat)
    requires Initial(w0)
    requires a in Reached(w0, run).acks && a.applied && Latches(a.command)
    ensures var w := Reached(w0, run);
      && h < |w.log| && w.log[h].AppliedCommand? && w.log[h].node == a.from && w.log[h].command == a.command
      && (FreedSince(w.log, a.from, h) || Latched(w.nodes[a.from]))
  {
    var w := Reached(w0, run);
    assert AcksHonest(w.acks, w.log) && NodesOk(w);
    hide Reached, Inv, Latched;
    h :| 0 <= h < |w.log| && Answers(w.log[h], a);
    if !FreedSince(w.log, a.from, h) {
      assert Held(w.log, a.from, h);
    }
  }
}
