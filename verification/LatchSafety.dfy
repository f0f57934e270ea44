/** What the propulsion latch and the stop table guarantee on one node. */
module LatchSafety {
  import opened Wrappers
  import opened ControlProtocol
  import opened DriveLatch
  import opened ControlServer

  // --- Disk -------------------------------------------------------------------

  /** No crash now can be followed by a start with propulsion enabled. */
  predicate Secure(d: Disk) {
    d.Ok() && !CouldWake(d)
  }

  predicate AllSecure(s: seq<Disk>) {
    forall d | d in s :: Secure(d)
  }

  lemma WakesVisibly(d: Disk)
    ensures d.Ok() && LoadsEnabled(d.marker, d.file, d.legacy) ==> CouldWake(d)
  {
  }

  lemma SecureDoesNotLoad(d: Disk, after: Disk, r: ReadFault)
    requires Secure(d) && MayLeave(d, after)
    ensures Secure(after) && !Load(after, r) && !Load(d, r)
  {
    WakesVisibly(d);
    WakesVisibly(after);
    assert forall m, f | m in after.markers && f in after.files :: m in d.markers && f in d.files;
  }

  /** Setting the marker never makes a disk wake; once synced it settles the matter. */
  lemma MarkingSecure(d: Disk, w: WriteFault)
    requires d.Ok()
    ensures var s := Passes(d, WriteMarker(d, true), w);
      && (Secure(d) ==> AllSecure(s))
      && (forall x | x in s :: x.Ok())
      && (w.Fine? ==> Last(s).markers == {true} && Secure(Last(s)))
      && Last(s).files <= d.files
  {
  }

  lemma SavingDisabledSecure(d: Disk, w: WriteFault)
    requires d.Ok()
    ensures var s := Passes(d, WriteFile(d, Saved(false)), w);
      && (Secure(d) ==> AllSecure(s))
      && (forall x | x in s :: x.Ok())
      && (w.Fine? ==> Secure(Last(s)))
      && Last(s).markers <= d.markers
  {
  }

  lemma SavingUnderMarkerSecure(d: Disk, w: WriteFault)
    requires d.Ok() && d.markers == {true}
    ensures var s := Passes(d, WriteFile(d, Saved(true)), w);
      && AllSecure(s) && Last(s).markers == {true} && (w.Fine? ==> Last(s).files == {Saved(true)})
  {
  }

  lemma AllSecureJoin(a: seq<Disk>, b: seq<Disk>)
    requires AllSecure(a) && AllSecure(b)
    ensures AllSecure(a + b)
  {
  }

  lemma RollbackSecure(c: Controller, d: Disk, passed: seq<Disk>, f: Faults, reply: Reply, woke: bool)
    requires Secure(d) && AllSecure(passed)
    ensures var e := Rollback(c, d, passed, f, reply, woke);
      AllSecure(e.passed) && Secure(e.disk) && !e.ctrl.enabled
  {
    hide Passes;
    MarkingSecure(d, f.rollbackBegin);
    var marking := Passes(d, WriteMarker(d, true), f.rollbackBegin);
    var d1 := Last(marking);
    SavingDisabledSecure(d1, f.rollbackSave);
    AllSecureJoin(passed, marking);
    AllSecureJoin(passed + marking, Passes(d1, WriteFile(d1, Saved(false)), f.rollbackSave));
  }

  /** How far an enable got by the time the controller was asked to enable propulsion. */
  function BeforeWake(d: Disk, f: Faults): seq<Disk> {
    var marking := Passes(d, WriteMarker(d, true), f.begin);
    marking + Passes(Last(marking), WriteFile(Last(marking), Saved(true)), f.save)
  }

  /**
   A command during which the controller does not enable propulsion leaves a
   latched node latched: at every crash point, after every write that failed
   before or after its effect.
   */
  lemma StaysLatched(c: Controller, d: Disk, command: Command, f: Faults)
    requires Secure(d) && !Apply(c, d, command, f).woke
    ensures var e := Apply(c, d, command, f);
      AllSecure(e.passed) && Secure(e.disk) && (!c.enabled ==> !e.ctrl.enabled)
  {
    hide Passes;
    match command
    case RelayHold | DriveDisable =>
      SavingDisabledSecure(d, f.save);
    case DriveEnable =>
      MarkingSecure(d, f.begin);
      var marking := Passes(d, WriteMarker(d, true), f.begin);
      var d1 := Last(marking);
      if !f.begin.Fine? {
        RollbackSecure(c, d1, marking, f, Rejected, false);
      } else {
        SavingUnderMarkerSecure(d1, f.save);
        var saving := Passes(d1, WriteFile(d1, Saved(true)), f.save);
        AllSecureJoin(marking, saving);
        if !f.save.Fine? {
          RollbackSecure(c, Last(saving), marking + saving, f, Rejected, false);
        } else {
          var (c', reply) := Handle(c, command, f.io);
          RollbackSecure(c', Last(saving), marking + saving, f, reply, false);
        }
      }
    case _ =>
  }

  /** Until the controller has enabled propulsion, an enable leaves the disk secure at every crash point. */
  lemma SecureUntilWake(d: Disk, f: Faults)
    requires Secure(d) && f.begin.Fine?
    ensures AllSecure(BeforeWake(d, f))
  {
    hide Passes;
    MarkingSecure(d, f.begin);
    var marking := Passes(d, WriteMarker(d, true), f.begin);
    SavingUnderMarkerSecure(Last(marking), f.save);
    AllSecureJoin(marking, Passes(Last(marking), WriteFile(Last(marking), Saved(true)), f.save));
  }

  lemma WakePoint(c: Controller, d: Disk, command: Command, f: Faults)
    requires Apply(c, d, command, f).woke
    ensures command.DriveEnable? && f.begin.Fine? && f.save.Fine?
    ensures BeforeWake(d, f) <= Apply(c, d, command, f).passed
    ensures !Handle(c, DriveEnable, f.io).1.Rejected?
  {
    hide Passes;
  }

  /** An acknowledged hold is durable and has stopped the wheels. */
  lemma HoldSticks(c: Controller, d: Disk, command: Command, f: Faults)
    requires d.Ok() && (command.RelayHold? || command.DriveDisable?)
    requires Apply(c, d, command, f).reply.Applied?
    ensures var e := Apply(c, d, command, f);
      Secure(e.disk) && !e.ctrl.enabled && e.ctrl.motion == STILL && !e.woke
  {
    SavingDisabledSecure(d, f.save);
  }

  lemma ApplyKeepsOk(c: Controller, d: Disk, command: Command, f: Faults)
    requires d.Ok()
    ensures Apply(c, d, command, f).disk.Ok() && AllOk(Apply(c, d, command, f).passed)
  {
    hide Passes, Handle;
    match command
    case RelayHold | DriveDisable =>
      WriteOk(d, WriteFile(d, Saved(false)), f.save);
    case DriveEnable => ApplyEnableOk(c, d, f);
    case _ =>
  }

  lemma ApplyEnableOk(c: Controller, d: Disk, f: Faults)
    requires d.Ok()
    ensures Apply(c, d, DriveEnable, f).disk.Ok() && AllOk(Apply(c, d, DriveEnable, f).passed)
  {
    hide Passes, Handle, Rollback, AllOk;
    var marking := Passes(d, WriteMarker(d, true), f.begin);
    WriteOk(d, WriteMarker(d, true), f.begin);
    var d1 := Last(marking);
    RollbackOk(c, d1, marking, f, Rejected, false);
    if f.begin.Fine? {
      var (c', reply) := Handle(c, DriveEnable, f.io);
      EnableOk(c, c', d1, marking, f, reply);
    }
  }

  predicate AllOk(s: seq<Disk>) {
    forall d | d in s :: d.Ok()
  }

  lemma WriteOk(d: Disk, changed: Disk, w: WriteFault)
    requires d.Ok() && changed.Ok()
    ensures AllOk(Passes(d, changed, w)) && Last(Passes(d, changed, w)).Ok()
  {
  }

  lemma RollbackOk(c: Controller, d: Disk, passed: seq<Disk>, f: Faults, reply: Reply, woke: bool)
    requires d.Ok() && AllOk(passed)
    ensures Rollback(c, d, passed, f, reply, woke).disk.Ok() && AllOk(Rollback(c, d, passed, f, reply, woke).passed)
  {
    hide Passes, Handle;
    WriteOk(d, WriteMarker(d, true), f.rollbackBegin);
    var d1 := Last(Passes(d, WriteMarker(d, true), f.rollbackBegin));
    WriteOk(d1, WriteFile(d1, Saved(false)), f.rollbackSave);
  }

  predicate BothOk(e: Effect) {
    e.disk.Ok() && AllOk(e.passed)
  }

  /** The part of an enable that follows the marker. */
  lemma EnableOk(c: Controller, c': Controller, d: Disk, marking: seq<Disk>, f: Faults, reply: Reply)
    requires d.Ok() && AllOk(marking)
    ensures var saving := Passes(d, WriteFile(d, Saved(true)), f.save);
      var committing := Passes(Last(saving), WriteMarker(Last(saving), false), f.commit);
      && AllOk(marking + saving) && Last(saving).Ok()
      && AllOk(marking + saving + committing) && Last(committing).Ok()
      && BothOk(Rollback(c, Last(saving), marking + saving, f, Rejected, false))
      && BothOk(Rollback(c', Last(saving), marking + saving, f, reply, reply.Raised?))
      && BothOk(Rollback(c', Last(committing), marking + saving + committing, f, Rejected, true))
  {
    hide Passes, Handle, Rollback;
    WriteOk(d, WriteFile(d, Saved(true)), f.save);
    var saving := Passes(d, WriteFile(d, Saved(true)), f.save);
    WriteOk(Last(saving), WriteMarker(Last(saving), false), f.commit);
    var committing := Passes(Last(saving), WriteMarker(Last(saving), false), f.commit);
    RollbackOk(c, Last(saving), marking + saving, f, Rejected, false);
    RollbackOk(c', Last(saving), marking + saving, f, reply, reply.Raised?);
    RollbackOk(c', Last(committing), marking + saving + committing, f, Rejected, true);
  }

  /**
   The one way a rejected enable can leave a node that starts up enabled: the
   unlink of the marker took effect, its directory sync failed, and neither
   rollback write was made durable.
   */
  lemma RejectedEnableCouldWakeIff(c: Controller, d: Disk, f: Faults)
    requires Secure(d) && !Apply(c, d, DriveEnable, f).reply.Applied?
    ensures CouldWake(Apply(c, d, DriveEnable, f).disk) <==>
      && f.begin.Fine? && f.save.Fine? && Handle(c, DriveEnable, f.io).1.Applied?
      && f.commit.FailsAfter? && !f.rollbackBegin.Fine? && !f.rollbackSave.Fine?
    ensures !Apply(c, d, DriveEnable, f).ctrl.enabled
  {
    if !(f.begin.Fine? && f.save.Fine? && Handle(c, DriveEnable, f.io).1.Applied?) {
      if Apply(c, d, DriveEnable, f).woke {
        RaisedEnableSecure(c, d, f);
      } else {
        StaysLatched(c, d, DriveEnable, f);
        RejectedEnableDisabled(c, d, f);
      }
    } else {
      CommitFailed(c, d, f);
    }
  }

  lemma RejectedEnableDisabled(c: Controller, d: Disk, f: Faults)
    requires !Apply(c, d, DriveEnable, f).reply.Applied?
    ensures !Apply(c, d, DriveEnable, f).ctrl.enabled
  {
    hide Passes;
  }

  lemma RaisedEnableSecure(c: Controller, d: Disk, f: Faults)
    requires Secure(d) && f.begin.Fine? && f.save.Fine?
    requires var r := Handle(c, DriveEnable, f.io).1; r.Raised? || (r.Applied? && f.commit.FailsBefore?)
    ensures var e := Apply(c, d, DriveEnable, f); AllSecure(e.passed) && Secure(e.disk) && !e.ctrl.enabled
  {
    hide Passes;
    MarkingSecure(d, f.begin);
    var marking := Passes(d, WriteMarker(d, true), f.begin);
    SavingUnderMarkerSecure(Last(marking), f.save);
    var saving := Passes(Last(marking), WriteFile(Last(marking), Saved(true)), f.save);
    var d2 := Last(saving);
    AllSecureJoin(marking, saving);
    var (c', reply) := Handle(c, DriveEnable, f.io);
    if reply.Raised? {
      RollbackSecure(c', d2, marking + saving, f, Raised, true);
    } else {
      var committing := Passes(d2, WriteMarker(d2, false), f.commit);
      assert committing == [d2] by { CommitFailsBefore(d2); }
      AllSecureJoin(marking + saving, committing);
      RollbackSecure(c', d2, marking + saving + committing, f, Rejected, true);
    }
  }

  lemma CommitFailsBefore(d: Disk)
    ensures Passes(d, WriteMarker(d, false), FailsBefore) == [d]
  {
  }

  lemma CommitFailed(c: Controller, d: Disk, f: Faults)
    requires Secure(d) && f.begin.Fine? && f.save.Fine? && Handle(c, DriveEnable, f.io).1.Applied? && !f.commit.Fine?
    ensures var e := Apply(c, d, DriveEnable, f);
      !e.ctrl.enabled && (CouldWake(e.disk) <==> f.commit.FailsAfter? && !f.rollbackBegin.Fine? && !f.rollbackSave.Fine?)
  {
    var d2 := Disk(true, Saved(true), d.legacy, {true}, {Saved(true)});
    assert Last(BeforeWake(d, f)) == d2;
    var d3 := Last(Passes(d2, WriteMarker(d2, false), f.commit));
    var d4 := Last(Passes(d3, WriteMarker(d3, true), f.rollbackBegin));
    var d5 := Last(Passes(d4, WriteFile(d4, Saved(false)), f.rollbackSave));
    assert Apply(c, d, DriveEnable, f).disk == d5;
    if f.commit.FailsAfter? && !f.rollbackBegin.Fine? && !f.rollbackSave.Fine? {
      assert LoadsEnabled(false, Saved(true), d.legacy) && false in d5.markers && Saved(true) in d5.files;
    }
  }

  /** The unlink of the marker takes effect. */
  predicate Unlinks(c: Controller, f: Faults) {
    f.begin.Fine? && f.save.Fine? && Handle(c, DriveEnable, f.io).1.Applied? && !f.commit.FailsBefore?
  }

  /** The unlink took effect and nothing after it took it back. */
  predicate Frees(c: Controller, f: Faults) {
    Unlinks(c, f) && (f.commit.Fine? || (!f.rollbackBegin.Fine? && !f.rollbackSave.Fine?))
  }

  /** The disks of an enable up to the one the unlink starts from. */
  function BeforeUnlink(d: Disk, f: Faults): seq<Disk> {
    BeforeWake(d, f) + [Last(BeforeWake(d, f))]
  }

  /**
   A latched node can move again, or start up able to move, exactly after an
   enable whose unlink took effect and which was either applied or not taken
   back by a durable rollback.
   */
  lemma FreedIff(c: Controller, d: Disk, command: Command, f: Faults)
    requires Secure(d) && !c.enabled
    ensures var e := Apply(c, d, command, f);
      e.ctrl.enabled || CouldWake(e.disk) <==> e.woke && Frees(c, f)
  {
    hide Passes, CouldWake;
    var e := Apply(c, d, command, f);
    if !e.woke {
      StaysLatched(c, d, command, f);
    } else {
      WakePoint(c, d, command, f);
      if e.reply.Applied? {
        assert Frees(c, f) && e.ctrl.enabled;
      } else {
        RejectedEnableCouldWakeIff(c, d, f);
      }
    }
  }

  /** At a crash before the unlink took effect, a latched node's disk still starts up latched. */
  lemma SecureBeforeUnlink(c: Controller, d: Disk, command: Command, f: Faults, at: nat)
    requires Secure(d)
    requires var e := Apply(c, d, command, f);
      at < |e.passed| && !(e.woke && Unlinks(c, f) && at >= |BeforeUnlink(d, f)|)
    ensures Secure(Apply(c, d, command, f).passed[at])
  {
    hide Passes, CouldWake, Handle, WriteMarker, WriteFile;
    var e := Apply(c, d, command, f);
    if !e.woke {
      StaysLatched(c, d, command, f);
    } else {
      WakePoint(c, d, command, f);
      SecureUntilWake(d, f);
      if Unlinks(c, f) {
        UnlinkStart(c, d, f);
        hide Apply, BeforeWake;
        assert e.passed[at] == if at < |BeforeWake(d, f)| then BeforeWake(d, f)[at] else Last(BeforeWake(d, f));
        assert Last(BeforeWake(d, f)) in BeforeWake(d, f);
      } else {
        RaisedEnableSecure(c, d, f);
      }
    }
  }

  lemma UnlinkStart(c: Controller, d: Disk, f: Faults)
    requires Unlinks(c, f)
    ensures BeforeWake(d, f) != [] && BeforeUnlink(d, f) <= Apply(c, d, DriveEnable, f).passed
  {
    var before := BeforeWake(d, f);
    var d2 := Last(before);
    var committing := Passes(d2, WriteMarker(d2, false), f.commit);
    assert committing[..1] == [d2];
    assert before + committing == BeforeUnlink(d, f) + committing[1..];
    assert before + committing <= Apply(c, d, DriveEnable, f).passed;
  }

  /** A sequence of disks in which what is shown never goes from disabled to enabled. */
  predicate NeverRises(s: seq<Disk>) {
    forall i | 0 < i < |s| :: Load(s[i], Readable) ==> Load(s[i - 1], Readable)
  }

  lemma WriteNeverRises(d: Disk, changed: Disk, w: WriteFault)
    requires !Load(changed, Readable)
    ensures NeverRises(Passes(d, changed, w)) && Passes(d, changed, w)[0] == d
  {
  }

  lemma JoinNeverRises(a: seq<Disk>, b: seq<Disk>)
    requires NeverRises(a) && NeverRises(b) && (a != [] && b != [] ==> Last(a) == b[0])
    ensures NeverRises(a + b)
  {
    hide Load;
  }

  lemma RollbackNeverRises(c: Controller, d: Disk, passed: seq<Disk>, f: Faults, reply: Reply, woke: bool)
    requires NeverRises(passed) && passed != [] && Last(passed) == d
    ensures NeverRises(Rollback(c, d, passed, f, reply, woke).passed)
  {
    var marking := Passes(d, WriteMarker(d, true), f.rollbackBegin);
    var d1 := Last(marking);
    WriteNeverRises(d, WriteMarker(d, true), f.rollbackBegin);
    WriteNeverRises(d1, WriteFile(d1, Saved(false)), f.rollbackSave);
    hide Passes, NeverRises, Load;
    JoinNeverRises(passed, marking);
    JoinNeverRises(passed + marking, Passes(d1, WriteFile(d1, Saved(false)), f.rollbackSave));
  }

  lemma BeforeWakeNeverRises(d: Disk, f: Faults)
    requires f.begin.Fine?
    ensures NeverRises(BeforeWake(d, f)) && Last(BeforeWake(d, f)).marker && NeverRises(BeforeUnlink(d, f))
  {
    var marking := Passes(d, WriteMarker(d, true), f.begin);
    var d1 := Last(marking);
    assert d1.marker;
    WriteNeverRises(d, WriteMarker(d, true), f.begin);
    WriteNeverRises(d1, WriteFile(d1, Saved(true)), f.save);
    assert Last(BeforeWake(d, f)).marker;
    hide Passes;
    JoinNeverRises(marking, Passes(d1, WriteFile(d1, Saved(true)), f.save));
    JoinNeverRises(BeforeWake(d, f), [Last(BeforeWake(d, f))]);
  }

  /** A command whose unlink does not take effect never turns a shown disabled into enabled. */
  lemma QuietUnlessUnlinked(c: Controller, d: Disk, command: Command, f: Faults)
    requires !(command.DriveEnable? && Unlinks(c, f))
    ensures NeverRises(Apply(c, d, command, f).passed)
  {
    if command.DriveEnable? {
      QuietEnable(c, d, f);
    } else if command.RelayHold? || command.DriveDisable? {
      WriteNeverRises(d, WriteFile(d, Saved(false)), f.save);
    }
  }

  lemma QuietEnable(c: Controller, d: Disk, f: Faults)
    requires !Unlinks(c, f)
    ensures NeverRises(Apply(c, d, DriveEnable, f).passed)
  {
    var marking := Passes(d, WriteMarker(d, true), f.begin);
    var d1 := Last(marking);
    WriteNeverRises(d, WriteMarker(d, true), f.begin);
    if !f.begin.Fine? {
      hide Passes, NeverRises, Load, Handle;
      RollbackNeverRises(c, d1, marking, f, Rejected, false);
      return;
    }
    BeforeWakeNeverRises(d, f);
    var d2 := Last(BeforeWake(d, f));
    CommitFailsBefore(d2);
    hide Passes, NeverRises, Load, Rollback;
    var (c', reply) := Handle(c, DriveEnable, f.io);
    RollbackNeverRises(c, d2, BeforeWake(d, f), f, Rejected, false);
    RollbackNeverRises(c', d2, BeforeWake(d, f), f, reply, reply.Raised?);
    RollbackNeverRises(c', d2, BeforeUnlink(d, f), f, Rejected, true);
  }

  lemma RiseIsAtJoin(a: seq<Disk>, b: seq<Disk>, i: nat)
    requires NeverRises(a) && NeverRises(b)
    requires i + 1 < |a + b| && !Load((a + b)[i], Readable) && Load((a + b)[i + 1], Readable)
    ensures i + 1 == |a|
  {
    hide Load;
  }

  /** What the disk shows goes from disabled to enabled at the unlink of the marker and nowhere else. */
  lemma LoadRisesOnlyAtUnlink(c: Controller, d: Disk, command: Command, f: Faults, i: nat)
    requires var s := Apply(c, d, command, f).passed;
      i + 1 < |s| && !Load(s[i], Readable) && Load(s[i + 1], Readable)
    ensures command.DriveEnable? && Unlinks(c, f) && i + 1 == |BeforeUnlink(d, f)|
  {
    var s := Apply(c, d, command, f).passed;
    hide Apply, Load;
    if command.DriveEnable? && Unlinks(c, f) {
      var before := BeforeUnlink(d, f);
      UnlinkStart(c, d, f);
      BeforeWakeNeverRises(d, f);
      AfterUnlinkNeverRises(c, d, f);
      hide BeforeWake, BeforeUnlink, NeverRises;
      assert s == before + s[|before|..];
      RiseIsAtJoin(before, s[|before|..], i);
    } else {
      QuietUnlessUnlinked(c, d, command, f);
      assert false;
    }
  }

  /** Once the marker is unlinked the disks only lose: a rollback never turns a shown disabled into enabled. */
  lemma AfterUnlinkNeverRises(c: Controller, d: Disk, f: Faults)
    requires Unlinks(c, f)
    ensures var s := Apply(c, d, DriveEnable, f).passed;
      |BeforeUnlink(d, f)| <= |s| && NeverRises(s[|BeforeUnlink(d, f)|..])
  {
    var before := BeforeUnlink(d, f);
    var d2 := Last(BeforeWake(d, f));
    var changed := WriteMarker(d2, false);
    var after := Passes(d2, changed, f.commit)[1..];
    assert before + after == BeforeWake(d, f) + Passes(d2, changed, f.commit);
    assert NeverRises(after) && after != [] && Last(after) == Last(Passes(d2, changed, f.commit));
    hide BeforeWake, BeforeUnlink, NeverRises, Load, Passes;
    var (c', _) := Handle(c, DriveEnable, f.io);
    RollbackNeverRises(c', Last(after), after, f, Rejected, true);
    RollbackAppends(c', Last(after), before, after, f);
  }

  lemma RollbackAppends(c: Controller, d: Disk, a: seq<Disk>, b: seq<Disk>, f: Faults)
    ensures Rollback(c, d, a + b, f, Rejected, true).passed == a + Rollback(c, d, b, f, Rejected, true).passed
  {
    hide Passes, Handle;
  }

  // --- Controller -------------------------------------------------------------

  /** A latched controller rejects every drive command and turns no other command into motion. */
  lemma LatchedRejectsDrive(c: Controller, command: Command, io: Io)
    requires !c.enabled && !Normalized(c.role, command).DriveEnable?
    ensures var (c', reply) := Handle(c, command, io);
      && !c'.enabled
      && (c.motion == STILL ==> c'.motion == STILL)
      && (Normalized(c.role, command).Drive? ==> reply.Rejected? && c' == c)
  {
  }

  /** An applied stop has stopped everything and touched nothing else. */
  lemma StopStills(c: Controller, command: Command, io: Io)
    requires Normalized(c.role, command).Stop?
    ensures var (c', reply) := Handle(c, command, io);
      && c'.motion.left == 0.0 && c'.motion.right == 0.0 && c'.motion.front == 0.0
      && c'.enabled == c.enabled && c'.faulted == c.faulted && c'.role == c.role
      && (reply.Applied? <==> !io.fails)
    ensures command.Stop? ==> Normalized(c.role, command).Stop?
  {
  }

  /**
   A drive command is taken exactly by a controller that is enabled and has no
   fault; then the wheels turn as it asks and the front motors keep turning as
   they were, or the other way round for a front motor command.
   */
  lemma DriveMoves(c: Controller, command: Command, io: Io)
    requires Normalized(c.role, command).Drive?
    ensures var (c', reply) := Handle(c, command, io);
      && (reply.Rejected? <==> !c.enabled || c.faulted)
      && (reply.Rejected? ==> c' == c)
      && (reply.Raised? <==> !reply.Rejected? && io.fails)
      && c'.enabled == c.enabled && c'.faulted == c.faulted && c'.role == c.role
      && (!reply.Rejected? ==>
            var front := Normalized(c.role, command).kind in {FrontMotorForward, FrontMotorBackward, FrontForward, FrontBackward};
            && c'.motion.front == (if front then io.want.front else c.motion.front)
            && c'.motion.left == (if front then c.motion.left else io.want.left)
            && c'.motion.right == (if front then c.motion.right else io.want.right))
  {
  }

  /** On the head a front stop stills the front motors alone; anywhere else it stops everything. */
  lemma FrontStopStills(c: Controller, io: Io)
    ensures var c' := Handle(c, FrontStop, io).0;
      && c'.motion.front == 0.0 && c'.enabled == c.enabled && c'.faulted == c.faulted
      && (if c.role.Head? then c'.motion.left == c.motion.left && c'.motion.right == c.motion.right
          else c'.motion.left == 0.0 && c'.motion.right == 0.0)
  {
  }

  /** What no other command does: start a wheel, take the latch off or clear a fault. */
  lemma OnlyTheseChange(c: Controller, command: Command, io: Io)
    ensures var (c', reply) := Handle(c, command, io);
      && (!c.enabled && c'.enabled ==> command.DriveEnable? && !c.faulted)
      && (c.enabled && !c'.enabled ==> command.RelayHold? || command.DriveDisable?)
      && (c'.motion != c.motion && c'.motion != STILL ==> command.Drive? || command.FrontStop?)
      && c'.faulted == c.faulted
    ensures command.DriveEnable? ==>
      Handle(c, command, io) == (if c.faulted then (c, Rejected) else (c.(enabled := true), if io.fails then Raised else Applied))
    ensures command.RelayHold? || command.DriveDisable? ==>
      !Handle(c, command, io).0.enabled && Handle(c, command, io).0.motion == STILL && !Handle(c, command, io).1.Rejected?
    ensures command.DetachPress? || command.DetachRest? ==> Handle(c, command, io).0 == c && !Handle(c, command, io).1.Rejected?
    ensures command.NoCommand? || command.Unknown? ==> Handle(c, command, io) == (c, Rejected)
  {
  }

  predicate Forwards(k: DriveKind) {
    k in {Forward, SlowForward, ForwardLeft, ForwardRight, MildForwardLeft, MildForwardRight}
  }

  predicate Backwards(k: DriveKind) {
    k in {Backward, SlowBackward, BackwardLeft, BackwardRight, MildBackwardLeft, MildBackwardRight}
  }

  /** Nodes other than the head drive straight, in the direction asked for, or stop; the head does what it is told. */
  lemma NodesDriveStraight(role: Role, k: DriveKind)
    ensures var n := Normalized(role, Drive(k));
      if role.Head? then n == Drive(k)
      else if n.Stop? then !Forwards(k) && !Backwards(k)
      else n.Drive? && n.kind in {Forward, Backward, SlowForward, SlowBackward}
           && Forwards(n.kind) == Forwards(k) && Backwards(n.kind) == Backwards(k) && (Forwards(k) || Backwards(k))
  {
  }

  // --- What goes through --------------------------------------------------------

  /** The disk shows propulsion enabled only without a marker and with every state there is valid and enabled. */
  lemma LoadIff(d: Disk, r: ReadFault)
    ensures Load(d, r) <==>
      && r.Readable? && !d.marker
      && (d.file == Saved(true) || (d.file == Absent && forall f | f in d.legacy :: f == Saved(true)))
  {
  }

  /** An applied enable is durable: the controller is enabled without starting a wheel, and every restart finds it enabled. */
  lemma EnableSticks(c: Controller, d: Disk, f: Faults, left: Disk)
    requires d.Ok() && Apply(c, d, DriveEnable, f).reply.Applied?
    requires MayLeave(Apply(c, d, DriveEnable, f).disk, left)
    ensures Apply(c, d, DriveEnable, f).ctrl == c.(enabled := true) && Load(left, Readable)
  {
    var d2 := Disk(true, Saved(true), d.legacy, {true}, {Saved(true)});
    assert Last(BeforeWake(d, f)) == d2;
    assert Apply(c, d, DriveEnable, f).disk == Disk(false, Saved(true), d.legacy, {false}, {Saved(true)});
  }

  /** Without a fault a hold, a disable and an enable are applied; every other command is answered by the controller and never touches the disk. */
  lemma FaultlessApplies(c: Controller, d: Disk, command: Command, f: Faults)
    ensures command.RelayHold? || command.DriveDisable? ==> (Apply(c, d, command, f).reply.Applied? <==> !f.io.fails && f.save.Fine?)
    ensures command.DriveEnable? ==>
      (Apply(c, d, command, f).reply.Applied? <==> f.begin.Fine? && f.save.Fine? && !c.faulted && !f.io.fails && f.commit.Fine?)
    ensures !command.RelayHold? && !command.DriveDisable? && !command.DriveEnable? ==>
      var e := Apply(c, d, command, f); e.disk == d && e.passed == [] && !e.woke && (e.ctrl, e.reply) == Handle(c, command, f.io)
  {
    hide Passes;
  }

  /** A node starts able to move exactly when the disk says so; otherwise it starts latched, or not at all. */
  lemma StartsEnabledIff(role: Role, d: Disk, f: StartFaults)
    ensures var s := StartUp(role, d, f);
      && (s.ctrl.enabled <==> Load(d, f.read)) && s.ctrl.motion == STILL && !s.ctrl.faulted && s.ctrl.role == role
      && (s.up <==> Load(d, f.read) || !f.io.fails)
  {
    hide Load, Passes;
  }

  // --- Start-up ---------------------------------------------------------------

  /** A node that starts from a secure disk opens its socket only with propulsion latched off. */
  lemma SecureStart(role: Role, d: Disk, f: StartFaults)
    requires Secure(d)
    ensures var s := StartUp(role, d, f);
      Secure(s.disk) && AllSecure(s.passed) && !s.ctrl.enabled && s.ctrl.motion == STILL
  {
    SecureDoesNotLoad(d, Synced(d), f.read);
    SavingDisabledSecure(d, f.save);
  }

  // --- The stop table over a run ------------------------------------------------

  datatype Input = Input(data: Datagram, peer: Peer, nowNs: int, faults: Faults)

  datatype Node = Node(memory: Memory, ctrl: Controller, disk: Disk)

  function OutcomeOf(cfg: Config, n: Node, i: Input): (o: Outcome)
    requires n.memory.Ok()
    ensures o.memory.Ok()
  {
    Process(cfg, n.memory, n.ctrl, n.disk, i.data, i.peer, i.nowNs, i.faults)
  }

  /** The node after a run of datagrams from a fresh start. */
  function After(cfg: Config, c: Controller, d: Disk, run: seq<Input>): (n: Node)
    ensures n.memory.Ok()
  {
    if run == [] then Node(FRESH, c, d)
    else
      var o := OutcomeOf(cfg, After(cfg, c, d, run[..|run| - 1]), run[|run| - 1]);
      Node(o.memory, o.ctrl, o.disk)
  }

  /** Input `i` of the run was applied as `command` for session `k`. */
  ghost predicate AppliedAt(cfg: Config, c: Controller, d: Disk, run: seq<Input>, i: int, command: Command, k: Key) {
    && 0 <= i < |run|
    && OutcomeOf(cfg, After(cfg, c, d, run[..i]), run[i]).ack.applied
    && run[i].data.Json? && run[i].data.msg.command == command
    && run[i].data.msg.session == Some(k.session) && run[i].peer.ip == k.source
  }

  /** The applied stop of session `k` that no applied detach has consumed since, if any. */
  ghost function LastStop(cfg: Config, c: Controller, d: Disk, run: seq<Input>, n: nat, k: Key): (r: Option<nat>)
    requires n <= |run|
    ensures r.Some? ==> r.value < n && AppliedAt(cfg, c, d, run, r.value, Stop, k)
  {
    if n == 0 then None
    else if AppliedAt(cfg, c, d, run, n - 1, Stop, k) then Some(n - 1)
    else if AppliedAt(cfg, c, d, run, n - 1, DetachPress, k) then None
    else LastStop(cfg, c, d, run, n - 1, k)
  }

  /** Remembering one session never invents or alters the entry of another. */
  lemma RememberEntries(t: Table, maxSessions: nat, k: Key, s: SessionState, other: Key)
    requires t.Ok() && other in Remember(t, maxSessions, k, s).states
    ensures Remember(t, maxSessions, k, s).states[other] == if other == k then s else t.states[other]
    ensures other != k ==> other in t.states
  {
    hide OldestOf;
  }

  /** What one datagram does to the stop table. */
  lemma StopsStep(cfg: Config, n: Node, i: Input)
    requires n.memory.Ok()
    ensures var o := OutcomeOf(cfg, n, i);
      if o.ack.applied then
        && i.data.Json? && i.data.msg.session.Some? && i.data.msg.seqNo.Some?
        && o.memory.stops == NoteApplied(n.memory.stops, Arrival(i.data.msg, cfg.role, i.peer.ip, i.nowNs))
        && (i.data.msg.command.DetachPress? ==>
              Armed(cfg, n.memory.stops, Arrival(i.data.msg, cfg.role, i.peer.ip, i.nowNs)))
      else o.memory.stops == n.memory.stops
  {
    hide Step, Apply, NoteApplied;
    if i.data.Json? {
      AcceptedParts(cfg.limits, n.memory.sessions, Arrival(i.data.msg, cfg.role, i.peer.ip, i.nowNs));
    }
  }

  lemma {:induction false} StopTableIsLastStop(cfg: Config, c: Controller, d: Disk, run: seq<Input>, n: nat, k: Key)
    requires n <= |run|
    ensures var stops := After(cfg, c, d, run[..n]).memory.stops;
      k in stops.states ==>
        var at := LastStop(cfg, c, d, run, n, k);
        && at.Some? && run[at.value].data.msg.seqNo == Some(stops.states[k].lastSeq)
        && run[at.value].nowNs == stops.states[k].lastSeenNs
  {
    if n > 0 {
      hide OutcomeOf, After, AppliedAt;
      StopTableIsLastStop(cfg, c, d, run, n - 1, k);
      StopsAt(cfg, c, d, run, n, k);
    } else {
      assert run[..0] == [];
    }
  }

  /** What step `n` of a run does to the entry of one session. */
  lemma StopsAt(cfg: Config, c: Controller, d: Disk, run: seq<Input>, n: nat, k: Key)
    requires 0 < n <= |run|
    ensures var stops, before := After(cfg, c, d, run[..n]).memory.stops, After(cfg, c, d, run[..n - 1]).memory.stops;
      k in stops.states ==>
        if AppliedAt(cfg, c, d, run, n - 1, Stop, k) then
          run[n - 1].data.msg.seqNo == Some(stops.states[k].lastSeq) && run[n - 1].nowNs == stops.states[k].lastSeenNs
        else
          && !AppliedAt(cfg, c, d, run, n - 1, DetachPress, k)
          && k in before.states && stops.states[k] == before.states[k]
  {
    AfterOne(cfg, c, d, run, n);
    hide OutcomeOf, After;
    StopsKey(cfg, After(cfg, c, d, run[..n - 1]), run[n - 1], k);
  }

  lemma AfterOne(cfg: Config, c: Controller, d: Disk, run: seq<Input>, n: nat)
    requires 0 < n <= |run|
    ensures After(cfg, c, d, run[..n]).memory.stops
         == OutcomeOf(cfg, After(cfg, c, d, run[..n - 1]), run[n - 1]).memory.stops
  {
    hide OutcomeOf;
    assert run[..n][..n - 1] == run[..n - 1];
  }

  /** How one datagram changes what the stop table says about one session. */
  lemma StopsKey(cfg: Config, n: Node, i: Input, k: Key)
    requires n.memory.Ok()
    ensures var o := OutcomeOf(cfg, n, i);
      var mine := o.ack.applied && i.data.Json? && i.data.msg.session == Some(k.session) && i.peer.ip == k.source;
      k in o.memory.stops.states ==>
        if mine && i.data.msg.command.Stop? then
          i.data.msg.seqNo == Some(o.memory.stops.states[k].lastSeq) && i.nowNs == o.memory.stops.states[k].lastSeenNs
        else
          && !(mine && i.data.msg.command.DetachPress?)
          && k in n.memory.stops.states && o.memory.stops.states[k] == n.memory.stops.states[k]
  {
    StopsStep(cfg, n, i);
    hide OutcomeOf, Remember, RemoveAt;
    var o := OutcomeOf(cfg, n, i);
    if o.ack.applied && k in o.memory.stops.states && i.data.msg.command.Stop? {
      var a := Arrival(i.data.msg, cfg.role, i.peer.ip, i.nowNs);
      RememberEntries(n.memory.stops, MAX_RECENT_STOPS, a.SessionKey(),
                      SessionState(a.msg.seqNo.value, 0, a.nowNs), k);
    }
  }

  /** Place in the train, from the head. */
  function Place(r: Role): nat {
    match r
    case Head => 0
    case Node1 => 1
    case Node2 => 2
    case Node3 => 3
  }

  predicate InFrontOf(a: Role, b: Role) {
    Place(a) + 1 == Place(b)
  }

  /** A node is released by the servo of the node just in front of it, and the head by none. */
  lemma ServoInFront(released: Role)
    ensures match DetachActuator(released) case None => released == Head case Some(a) => InFrontOf(a, released)
  {
  }

  /** When a node acknowledges a command as applied, and that anything else leaves controller, disk and stops alone or rejected. */
  lemma AppliedIff(cfg: Config, m: Memory, c: Controller, d: Disk, data: Datagram, peer: Peer, nowNs: int, f: Faults)
    requires m.Ok()
    ensures var o := Process(cfg, m, c, d, data, peer, nowNs, f);
      var taken := && data.Json? && (cfg.allowed == {} || peer.ip in cfg.allowed)
                   && ControlProtocol.Step(cfg.limits, m.sessions, Arrival(data.msg, cfg.role, peer.ip, nowNs)).1.accepted
                   && (data.msg.command.DetachPress? ==> Armed(cfg, m.stops, Arrival(data.msg, cfg.role, peer.ip, nowNs)));
      && (o.ack.applied <==> taken && Apply(c, d, data.msg.command, f).reply.Applied?)
      && (!taken ==> o.ctrl == c && o.disk == d && o.passed == [])
      && (!o.ack.applied ==> o.memory.stops == m.stops)
      && o.ack.to == peer && o.ack.from == cfg.role
      && (data.Json? ==> o.ack.session == data.msg.session && o.ack.seqNo == data.msg.seqNo && o.ack.command == data.msg.command)
  {
    hide ControlProtocol.Step, Apply, NoteApplied, Armed;
    if data.Json? {
      AcceptedParts(cfg.limits, m.sessions, Arrival(data.msg, cfg.role, peer.ip, nowNs));
    }
  }

  /** Which press is armed: the release just in front, acknowledged, naming this session's last stop of at most ten seconds ago. */
  lemma ArmedIff(cfg: Config, stops: Table, a: Arrival)
    requires !cfg.unsafeRawDetach && a.msg.session.Some?
    ensures Armed(cfg, stops, a) <==>
      && a.msg.context.Some? && a.msg.context.value.acknowledged
      && a.msg.context.value.releasedNode.Some? && InFrontOf(cfg.role, a.msg.context.value.releasedNode.value)
      && a.SessionKey() in stops.states
      && a.msg.context.value.stopSeq == Some(stops.states[a.SessionKey()].lastSeq)
      && stops.states[a.SessionKey()].lastSeenNs <= a.nowNs <= stops.states[a.SessionKey()].lastSeenNs + 10_000_000_000
  {
  }

  /**
   Every detach press a node applies consumes an applied stop of the same source
   and session whose sequence number it names, at most ten seconds old.
   */
  lemma DetachConsumesStop(cfg: Config, c: Controller, d: Disk, run: seq<Input>, j: nat, k: Key) returns (i: nat)
    requires !cfg.unsafeRawDetach && AppliedAt(cfg, c, d, run, j, DetachPress, k)
    ensures i < j && AppliedAt(cfg, c, d, run, i, Stop, k) && LastStop(cfg, c, d, run, j, k) == Some(i)
    ensures run[j].data.msg.context.Some?
    ensures run[j].data.msg.context.value.stopSeq == run[i].data.msg.seqNo
    ensures run[j].data.msg.context.value.acknowledged
    ensures run[j].data.msg.context.value.releasedNode.Some?
    ensures InFrontOf(cfg.role, run[j].data.msg.context.value.releasedNode.value)
    ensures 0 <= run[j].nowNs - run[i].nowNs <= DETACH_STOP_WINDOW_NS
  {
    hide OutcomeOf;
    StopsStep(cfg, After(cfg, c, d, run[..j]), run[j]);
    ServoInFront(run[j].data.msg.context.value.releasedNode.value);
    StopTableIsLastStop(cfg, c, d, run, j, k);
    i := LastStop(cfg, c, d, run, j, k).value;
  }

  /** No stop is consumed twice: a later press of the session finds a later stop. */
  lemma {:induction false} LastStopAfterDetach(cfg: Config, c: Controller, d: Disk, run: seq<Input>, j: nat, n: nat, k: Key)
    requires AppliedAt(cfg, c, d, run, j, DetachPress, k) && j < n <= |run|
    ensures var at := LastStop(cfg, c, d, run, n, k); at.Some? ==> at.value > j
  {
    OneCommandEach(cfg, c, d, run, n - 1, k);
    hide OutcomeOf, After, AppliedAt;
    if j < n - 1 {
      LastStopAfterDetach(cfg, c, d, run, j, n - 1, k);
    }
  }

  lemma OneCommandEach(cfg: Config, c: Controller, d: Disk, run: seq<Input>, i: int, k: Key)
    ensures !(AppliedAt(cfg, c, d, run, i, Stop, k) && AppliedAt(cfg, c, d, run, i, DetachPress, k))
  {
    hide OutcomeOf, After;
  }

  lemma DetachesConsumeDistinctStops(cfg: Config, c: Controller, d: Disk, run: seq<Input>, j: nat, j': nat, k: Key)
    returns (i: nat, i': nat)
    requires !cfg.unsafeRawDetach && j < j'
    requires AppliedAt(cfg, c, d, run, j, DetachPress, k) && AppliedAt(cfg, c, d, run, j', DetachPress, k)
    ensures i < j < i' < j'
    ensures LastStop(cfg, c, d, run, j, k) == Some(i) && LastStop(cfg, c, d, run, j', k) == Some(i')
    ensures AppliedAt(cfg, c, d, run, i, Stop, k) && AppliedAt(cfg, c, d, run, i', Stop, k)
  {
    i := DetachConsumesStop(cfg, c, d, run, j, k);
    i' := DetachConsumesStop(cfg, c, d, run, j', k);
    LastStopAfterDetach(cfg, c, d, run, j, j', k);
  }
}
