/**
 The propulsion latch: the motor controller's in-memory flag
 (robot/motor_driver.py) and its crash-safe copy on disk
 (robot/mesh_control_server.py, `DriveLatchStore`).

 A file replacement may fail before it takes effect or after (while the
 directory is being synced).  Besides what is visible, the disk model keeps
 every content each directory entry may have after a power loss.
 */
module DriveLatch {
  import opened Wrappers
  import opened ControlProtocol

  // --- Disk -------------------------------------------------------------------

  datatype File = Absent | Invalid | Saved(enabled: bool)

  datatype Disk = Disk(
    marker: bool,            // drive-enable.pending exists
    file: File,              // drive-latch.json
    legacy: seq<File>,       // drive-latch-*.json of the early format
    markers: set<bool>,      // what a power loss may leave of the marker
    files: set<File>)        // and of the state file
  {
    predicate Ok() {
      marker in markers && file in files
    }
  }

  datatype WriteFault = Fine | FailsBefore | FailsAfter
  datatype ReadFault = Readable | MarkerUnreadable | FileUnreadable

  predicate StateEnabled(f: File) {
    f == Saved(true)
  }

  predicate LoadsEnabled(marker: bool, file: File, legacy: seq<File>) {
    !marker && (if file.Absent? then forall f | f in legacy :: StateEnabled(f) else StateEnabled(file))
  }

  /** `load_drive_enabled`: anything unfinished, unreadable or invalid fails closed. */
  predicate Load(d: Disk, r: ReadFault) {
    r.Readable? && LoadsEnabled(d.marker, d.file, d.legacy)
  }

  /** Some crash now could be followed by a start with propulsion enabled. */
  predicate CouldWake(d: Disk) {
    exists m, f | m in d.markers && f in d.files :: LoadsEnabled(m, f, d.legacy)
  }

  /** The contents a crash may leave: what is visible, or any mix a power loss allows. */
  predicate MayLeave(d: Disk, after: Disk) {
    && after.legacy == d.legacy
    && after.markers == {after.marker} && after.files == {after.file}
    && after.marker in d.markers && after.file in d.files
  }

  function Synced(d: Disk): Disk {
    d.(markers := {d.marker}, files := {d.file})
  }

  /** The directory after a write took effect, its entries not yet synced. */
  function WriteFile(d: Disk, f: File): Disk {
    d.(file := f, files := d.files + {f})
  }

  function WriteMarker(d: Disk, m: bool): Disk {
    d.(marker := m, markers := d.markers + {m})
  }

  /** The disks a write passes through, given the disk once its effect is visible. */
  function Passes(d: Disk, changed: Disk, w: WriteFault): (r: seq<Disk>)
    ensures r != []
  {
    match w
    case Fine => [d, changed, Synced(changed)]
    case FailsBefore => [d]
    case FailsAfter => [d, changed]
  }

  function Last<T>(s: seq<T>): T
    requires s != []
  {
    s[|s| - 1]
  }

  class DriveLatchStore {
    var disk: Disk
    ghost var passed: seq<Disk>

    constructor (d: Disk)
      ensures disk == d && passed == [d]
    {
      disk, passed := d, [d];
    }

    method Replace(changed: Disk, w: WriteFault) returns (ok: bool)
      modifies this
      ensures ok == w.Fine?
      ensures disk == Last(Passes(old(disk), changed, w))
      ensures passed == old(passed) + Passes(old(disk), changed, w)
    {
      passed := passed + Passes(disk, changed, w);
      if w.FailsBefore? {
        return false;
      }
      disk := changed;
      if w.FailsAfter? {
        return false;
      }
      disk := Synced(disk);
      return true;
    }

    method SaveDriveEnabled(enabled: bool, w: WriteFault) returns (ok: bool)
      modifies this
      ensures ok == w.Fine?
      ensures disk == Last(Passes(old(disk), WriteFile(old(disk), Saved(enabled)), w))
      ensures passed == old(passed) + Passes(old(disk), WriteFile(old(disk), Saved(enabled)), w)
    {
      ok := Replace(WriteFile(disk, Saved(enabled)), w);
    }

    method BeginDriveEnable(w: WriteFault) returns (ok: bool)
      modifies this
      ensures ok == w.Fine?
      ensures disk == Last(Passes(old(disk), WriteMarker(old(disk), true), w))
      ensures passed == old(passed) + Passes(old(disk), WriteMarker(old(disk), true), w)
    {
      ok := Replace(WriteMarker(disk, true), w);
    }

    /** Unlinking a marker that is not there fails before it has any effect. */
    method CommitDriveEnable(w: WriteFault) returns (ok: bool)
      requires disk.marker
      modifies this
      ensures ok == w.Fine?
      ensures disk == Last(Passes(old(disk), WriteMarker(old(disk), false), w))
      ensures passed == old(passed) + Passes(old(disk), WriteMarker(old(disk), false), w)
    {
      ok := Replace(WriteMarker(disk, false), w);
    }

    method LoadDriveEnabled(r: ReadFault) returns (enabled: bool)
      ensures enabled == Load(disk, r)
    {
      if r.MarkerUnreadable? || disk.marker {
        return false;
      }
      if r.FileUnreadable? {
        return false;
      }
      if disk.file.Absent? {
        enabled := true;
        for i := 0 to |disk.legacy|
          invariant enabled <==> forall j | 0 <= j < i :: StateEnabled(disk.legacy[j])
        {
          if !StateEnabled(disk.legacy[i]) {
            enabled := false;
          }
        }
        return enabled;
      }
      return StateEnabled(disk.file);
    }
  }

  // --- Motor controller -------------------------------------------------------

  /** Wheel speed targets and the front motors' duty cycle. */
  datatype Motion = Motion(left: real, right: real, front: real)

  const STILL := Motion(0.0, 0.0, 0.0)

  datatype Controller = Controller(role: Role, enabled: bool, faulted: bool, motion: Motion)

  datatype Reply = Applied | Rejected | Raised

  /** How the GPIO calls of one command fare; `want` is the motion the command asks for. */
  datatype Io = Io(fails: bool, want: Motion)

  /** Nodes other than the head do not steer. */
  function NodeCommand(c: Command): Command {
    match c
    case Drive(ForwardLeft) | Drive(ForwardRight) | Drive(MildForwardLeft) | Drive(MildForwardRight) => Drive(SlowForward)
    case Drive(BackwardLeft) | Drive(BackwardRight) | Drive(MildBackwardLeft) | Drive(MildBackwardRight) => Drive(SlowBackward)
    case Drive(Left) | Drive(Right) | HeadServo(false) | FrontStop => Stop
    case Drive(FrontMotorForward) | Drive(FrontMotorBackward) | Drive(FrontForward) | Drive(FrontBackward) => Stop
    case _ => c
  }

  function Normalized(role: Role, c: Command): Command {
    if role.Head? then c else NodeCommand(c)
  }

  function FrontOnly(k: DriveKind): bool {
    k.FrontMotorForward? || k.FrontMotorBackward? || k.FrontForward? || k.FrontBackward?
  }

  /** `handle_command`. */
  function Handle(c: Controller, command: Command, io: Io): (Controller, Reply) {
    var reply := if io.fails then Raised else Applied;
    match Normalized(c.role, command)
    case NoCommand => (c, Rejected)
    case Unknown(_) => (c, Rejected)
    case Drive(kind) =>
      if c.faulted || !c.enabled then (c, Rejected)
      else if FrontOnly(kind) then (c.(motion := c.motion.(front := io.want.front)), reply)
      else (c.(motion := c.motion.(left := io.want.left, right := io.want.right)), reply)
    case DriveEnable => if c.faulted then (c, Rejected) else (c.(enabled := true), reply)
    case RelayHold | DriveDisable => (c.(enabled := false, motion := STILL), reply)
    case Stop => (c.(motion := STILL), reply)
    case FrontStop => (c.(motion := c.motion.(front := 0.0)), reply)
    case DetachPress | DetachRest | HeadServo(_) => (c, reply)
  }

  /** A control loop that dies latches propulsion off by itself. */
  function FailClosed(c: Controller): Controller {
    c.(enabled := false, faulted := true, motion := STILL)
  }

  class GpioRobotController {
    const role: Role
    var driveEnabled: bool
    var controlFault: bool
    var motion: Motion

    ghost function View(): Controller
      reads this
    {
      Controller(role, driveEnabled, controlFault, motion)
    }

    constructor (role: Role)
      ensures View() == Controller(role, true, false, STILL)
    {
      this.role := role;
      driveEnabled, controlFault, motion := true, false, STILL;
    }

    method StopAll()
      modifies this`motion
      ensures motion == STILL
    {
      motion := STILL;
    }

    method SetDriveTarget(want: Motion)
      modifies this`motion
      ensures motion == if driveEnabled then old(motion).(left := want.left, right := want.right) else old(motion)
    {
      if !driveEnabled {
        return;
      }
      motion := motion.(left := want.left, right := want.right);
    }

    method HandleCommand(command: Command, io: Io) returns (reply: Reply)
      modifies this
      ensures (View(), reply) == Handle(old(View()), command, io)
    {
      var normalized := Normalized(role, command);
      if normalized.NoCommand? {
        return Rejected;
      }
      if controlFault && (normalized.Drive? || normalized.DriveEnable?) {
        return Rejected;
      }
      if normalized.Drive? && !driveEnabled {
        return Rejected;
      }
      if normalized.Unknown? {
        return Rejected;
      }
      match normalized {
      case Drive(kind) =>
        if FrontOnly(kind) {
          motion := motion.(front := io.want.front);
        } else {
          SetDriveTarget(io.want);
        }
      case Stop => StopAll();
      case RelayHold | DriveDisable =>
        driveEnabled := false;
        StopAll();
      case DriveEnable => driveEnabled := true;
      case FrontStop => motion := motion.(front := 0.0);
      case _ =>
      }
      return if io.fails then Raised else Applied;
    }
  }

  // --- The latch transaction --------------------------------------------------

  /** Everything that may go wrong while one command is applied. */
  datatype Faults = Faults(
    io: Io, rollbackIo: Io,
    begin: WriteFault, save: WriteFault, commit: WriteFault,
    rollbackBegin: WriteFault, rollbackSave: WriteFault)

  /** `passed` lists the disks the command's writes go through, any of which a crash could find; `woke` says the controller enabled propulsion. */
  datatype Effect = Effect(ctrl: Controller, disk: Disk, passed: seq<Disk>, reply: Reply, woke: bool)

  function Rollback(c: Controller, d: Disk, passed: seq<Disk>, f: Faults, reply: Reply, woke: bool): Effect {
    var marking := Passes(d, WriteMarker(d, true), f.rollbackBegin);
    var d1 := Last(marking);
    var saving := Passes(d1, WriteFile(d1, Saved(false)), f.rollbackSave);
    Effect(Handle(c, RelayHold, f.rollbackIo).0, Last(saving), passed + marking + saving, reply, woke)
  }

  /** `_apply_validated_command` with a latch store configured. */
  function Apply(c: Controller, d: Disk, command: Command, f: Faults): Effect {
    match command
    case RelayHold | DriveDisable =>
      var (c', reply) := Handle(c, command, f.io);
      if !reply.Applied? then Effect(c', d, [], reply, false)
      else
        var saving := Passes(d, WriteFile(d, Saved(false)), f.save);
        Effect(c', Last(saving), saving, if f.save.Fine? then Applied else Rejected, false)
    case DriveEnable =>
      var marking := Passes(d, WriteMarker(d, true), f.begin);
      if !f.begin.Fine? then Rollback(c, Last(marking), marking, f, Rejected, false)
      else
        var d1 := Last(marking);
        var saving := Passes(d1, WriteFile(d1, Saved(true)), f.save);
        if !f.save.Fine? then Rollback(c, Last(saving), marking + saving, f, Rejected, false)
        else
          var d2 := Last(saving);
          var (c', reply) := Handle(c, command, f.io);
          if !reply.Applied? then Rollback(c', d2, marking + saving, f, reply, reply.Raised?)
          else
            var committing := Passes(d2, WriteMarker(d2, false), f.commit);
            var passed := marking + saving + committing;
            if f.commit.Fine? then Effect(c', Last(committing), passed, Applied, true)
            else Rollback(c', Last(committing), passed, f, Rejected, true)
    case _ =>
      var (c', reply) := Handle(c, command, f.io);
      Effect(c', d, [], reply, false)
  }

  /** The transaction as the server object runs it. */
  method ApplyValidated(controller: GpioRobotController, store: DriveLatchStore, command: Command, f: Faults)
    returns (reply: Reply, ghost woke: bool)
    modifies controller, store
    ensures var e := Apply(old(controller.View()), old(store.disk), command, f);
      && controller.View() == e.ctrl && store.disk == e.disk && reply == e.reply && woke == e.woke
      && store.passed == old(store.passed) + e.passed
  {
    hide Handle, Passes;
    if command.DriveEnable? {
      reply, woke := ApplyEnable(controller, store, f);
      return;
    }
    woke := false;
    reply := controller.HandleCommand(command, f.io);
    if (command.RelayHold? || command.DriveDisable?) && reply.Applied? {
      var saved := store.SaveDriveEnabled(false, f.save);
      if !saved {
        reply := Rejected;
      }
    }
  }

  method ApplyEnable(controller: GpioRobotController, store: DriveLatchStore, f: Faults)
    returns (reply: Reply, ghost woke: bool)
    modifies controller, store
    ensures var e := Apply(old(controller.View()), old(store.disk), DriveEnable, f);
      && controller.View() == e.ctrl && store.disk == e.disk && reply == e.reply && woke == e.woke
      && store.passed == old(store.passed) + e.passed
  {
    hide Handle, Passes;
    ghost var before := store.passed;
    var begun := store.BeginDriveEnable(f.begin);
    if !begun {
      RollbackFailedEnable(controller, store, before, f);
      return Rejected, false;
    }
    var saved := store.SaveDriveEnabled(true, f.save);
    if !saved {
      RollbackFailedEnable(controller, store, before, f);
      return Rejected, false;
    }
    MarkerAfterSave(old(store.disk), f.begin, f.save);
    reply := controller.HandleCommand(DriveEnable, f.io);
    if !reply.Applied? {
      RollbackFailedEnable(controller, store, before, f);
      return reply, reply.Raised?;
    }
    var committed := store.CommitDriveEnable(f.commit);
    if !committed {
      RollbackFailedEnable(controller, store, before, f);
      return Rejected, true;
    }
    return Applied, true;
  }

  lemma MarkerAfterSave(d: Disk, begin: WriteFault, save: WriteFault)
    ensures var d1 := Last(Passes(d, WriteMarker(d, true), begin));
      begin.Fine? ==> Last(Passes(d1, WriteFile(d1, Saved(true)), save)).marker
  {
  }

  method RollbackFailedEnable(controller: GpioRobotController, store: DriveLatchStore, ghost before: seq<Disk>, f: Faults)
    requires before <= store.passed
    modifies controller, store
    ensures var e := Rollback(old(controller.View()), old(store.disk), old(store.passed)[|before|..], f, Rejected, false);
      controller.View() == e.ctrl && store.disk == e.disk && store.passed == before + e.passed
  {
    hide Handle, Passes;
    var _ := controller.HandleCommand(RelayHold, f.rollbackIo);
    var _ := store.BeginDriveEnable(f.rollbackBegin);
    var _ := store.SaveDriveEnabled(false, f.rollbackSave);
  }
}
