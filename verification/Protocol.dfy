/**
 The concurrent protocol behind the journal (cli/src/runtime.rs): any number of
 command processes of any number of authority roots share one device.  Every
 command is cut at its device round-trips and journal writes, so another
 process, a crash or a reboot may come between any two of its steps.

 A journal write is atomic and either happens or fails; a device script is one
 step, which may be lost, cut short half-way, or done with its reply lost.
 */
module Protocol {
  import opened Basics
  import opened Journal

  type Root = nat

  /** The on-device marker directory; `Ownerless` is an interrupted claim. */
  datatype Anchor = Absent | Ownerless(madeAt: nat) | Bound(root: Root)

  datatype Delivery = Delivered | Lost | CutShort | ReplyLost

  datatype Command =
    | Drive(token: Option<Token>, name: CommandName)
    | OpenSession
    | ObserveSession(token: Option<Token>)
    | HandoffSession(token: Option<Token>)
    | RecoverSession(token: Option<Token>)
    | CloseSession(token: Option<Token>)

  /** The admitted operation a process keeps in memory. */
  datatype Operation =
    Operation(releaseAnchor: bool, name: CommandName, online: bool, recoveryCleanup: bool, state: State)

  /** Host daemons of a device, which outlive the command that started them. */
  datatype Service = Proxy | Recorder

  datatype Phase =
    | Exited
    | Entered(cmd: Command, state: State)
    | Probed(cmd: Command, state: State, boot: Boot)
    | Claimed(state: State)
    | Published(state: State)
    | Ready(cmd: Command, state: State, boot: Boot, online: bool)
    | Active(op: Operation)
    | Quarantined(op: Operation)
    | Unsaved(op: Operation)
    | Unpublishing
    | Releasing
    | LateReleasing

  datatype Process = Process(root: Root, phase: Phase, unsettled: nat)

  datatype World = World(
    journals: map<Root, State>,
    locks: map<Root, Pid>,
    procs: map<Pid, Process>,
    anchor: Anchor,
    index: Option<Root>,
    boot: nat,
    services: set<Service>,
    nextId: nat,
    logs: map<Root, seq<Op>>)

  const INIT := World(map[], map[], map[], Absent, None, 0, {}, 0, map[])

  /** What one process does next, or what befalls it. */
  datatype Action =
    | ProbeBoot(reachable: bool)
    | Claim(delivery: Delivery)
    | Publish
    | Commit(stored: bool)
    | Mutate
    | Settle
    | Complete(result: Option<Failure>, stored: bool)
    | PassiveWait(stored: bool)
    | Unpublish
    | Release(delivery: Delivery)
    | Crash

  datatype Event =
    | Begin(p: Pid, root: Root, cmd: Command)
    | Act(p: Pid, action: Action)
    | Reboot
    | ServiceStarts(service: Service)
    | ServiceStops(service: Service)

  // ---- reading and updating the world -----------------------------------

  function Disk(w: World, r: Root): State {
    if r in w.journals then w.journals[r] else EMPTY
  }

  function Log(w: World, r: Root): seq<Op> {
    if r in w.logs then w.logs[r] else []
  }

  /** Phases in which the process holds the OS lock of its root. */
  predicate HoldsLock(ph: Phase) {
    !ph.Exited? && !ph.LateReleasing?
  }

  function SetPhase(w: World, p: Pid, ph: Phase): World
    requires p in w.procs
  {
    w.(procs := w.procs[p := w.procs[p].(phase := ph)])
  }

  function Unlock(w: World, p: Pid): World
    requires p in w.procs
  {
    if HoldsLock(w.procs[p].phase) then w.(locks := w.locks - {w.procs[p].root}) else w
  }

  /** The process ends; the operating system drops its lock. */
  function Leave(w: World, p: Pid): World
    requires p in w.procs
  {
    SetPhase(Unlock(w, p), p, Exited)
  }

  /** Replace the journal of the process's root; `op` is kept for history only. */
  function Write(w: World, p: Pid, s: State, op: Op): World
    requires p in w.procs
  {
    var r := w.procs[p].root;
    w.(journals := w.journals[r := s], logs := w.logs[r := Log(w, r) + [op]])
  }

  /** Journal writes touch neither the device nor the host's owner index. */
  predicate DeviceKept(w: World, w': World) {
    w'.anchor == w.anchor && w'.index == w.index && w'.boot == w.boot && w'.services == w.services
  }

  /** Where a process can be once it has tried to commit. */
  predicate Committed(ph: Phase) {
    ph.Exited? || ph.Active? || ph.Releasing? || ph.Unpublishing?
  }

  // ---- device scripts ----------------------------------------------------

  predicate Abandoned(a: Anchor, boot: nat) {
    a.Ownerless? && a.madeAt < boot
  }

  function ClaimScript(a: Anchor, r: Root, boot: nat, d: Delivery): Anchor {
    if d.Lost? then a
    else if a.Absent? || Abandoned(a, boot) then (if d.CutShort? then Ownerless(boot) else Bound(r))
    else a
  }

  predicate ReadAccepts(a: Anchor, r: Root, boot: nat) {
    a == Bound(r) || a.Absent? || Abandoned(a, boot)
  }

  function ReleaseScript(a: Anchor, r: Root, boot: nat, d: Delivery): Anchor {
    if a != Bound(r) || d.Lost? then a else if d.CutShort? then Ownerless(boot) else Absent
  }

  // ---- steps --------------------------------------------------------------

  /** What a command keeps in memory of the journal it read under the lock. */
  function InMemory(j: State, cmd: Command): State {
    if cmd.Drive? then ClearStale(j) else j
  }

  predicate JournalAllows(j: State, cmd: Command) {
    match cmd
    case Drive(token, name) =>
      VerifyOwner(j, token) && (ClearStale(j).inFlight.None? || IsCleanup(name.path))
    case OpenSession => j.inFlight.None? && j.owner.None?
    case ObserveSession(token) => token.Some?
    case HandoffSession(token) => j.inFlight.None? && VerifyOwner(j, token) && j.owner.Some?
    case RecoverSession(token) => VerifyOwner(j, token) && j.inFlight.Some?
    case CloseSession(token) => j.inFlight.None? && VerifyOwner(j, token) && j.owner.Some?
  }

  predicate NeedsIdleServices(cmd: Command) {
    cmd.OpenSession? || cmd.HandoffSession? || cmd.CloseSession?
  }

  /** Take the root's lock, read the journal and make the first checks. */
  function BeginStep(w: World, p: Pid, r: Root, cmd: Command): World {
    if p in w.procs || r in w.locks then w
    else if JournalAllows(Disk(w, r), cmd) && !(NeedsIdleServices(cmd) && w.services != {}) then
      w.(procs := w.procs[p := Process(r, Entered(cmd, InMemory(Disk(w, r), cmd)), 0)], locks := w.locks[r := p])
    else w.(procs := w.procs[p := Process(r, Exited, 0)])
  }

  predicate IndexAllows(w: World, r: Root) {
    w.index.None? || w.index == Some(r)
  }

  function OfflineBoot(s: State): Boot {
    if s.owner.Some? then s.owner.value.boot else Unavailable
  }

  /** Where a process goes once it has asked the device for its boot identity. */
  function AfterProbe(w: World, r: Root, ph: Phase, reachable: bool): Option<Phase> {
    match ph
    case Entered(cmd, s) =>
      if cmd.OpenSession? || cmd.CloseSession? then None
      else if cmd.Drive? && !IndexAllows(w, r) then Some(Exited)
      else if reachable then Some(if cmd.Drive? then Probed(cmd, s, At(w.boot)) else Ready(cmd, s, At(w.boot), true))
      else if cmd.Drive? && AllowsOfflineControl(cmd.name.path) then Some(Ready(cmd, s, OfflineBoot(s), false))
      else Some(Exited)
    case Published(s) => Some(if reachable then Ready(OpenSession, s, At(w.boot), true) else Exited)
    case _ => None
  }

  function ProbeStep(w: World, p: Pid, reachable: bool): World
    requires p in w.procs
  {
    match AfterProbe(w, w.procs[p].root, w.procs[p].phase, reachable)
    case None => w
    case Some(Exited) => Leave(w, p)
    case Some(ph) => SetPhase(w, p, ph)
  }

  /** Where a process goes once the marker is found in order. */
  function AfterClaim(ph: Phase): Option<Phase> {
    match ph
    case Probed(cmd, s, boot) => Some(Ready(cmd, s, boot, true))
    case Entered(OpenSession, s) => Some(Claimed(s))
    case _ => None
  }

  /** Sessions and device-changing commands claim the marker; others read it. */
  predicate WantsClaim(ph: Phase) {
    ph.Entered? || (ph.Probed? && (ph.state.owner.Some? || (ph.cmd.Drive? && ph.cmd.name.changesDevice)))
  }

  function ClaimStep(w: World, p: Pid, d: Delivery): World
    requires p in w.procs
  {
    var r, ph := w.procs[p].root, w.procs[p].phase;
    if AfterClaim(ph).None? then w
    else
      var seen := if WantsClaim(ph) then ClaimScript(w.anchor, r, w.boot, d) else w.anchor;
      var accepted := if WantsClaim(ph) then seen == Bound(r) else ReadAccepts(w.anchor, r, w.boot);
      if d.Delivered? && accepted then SetPhase(w.(anchor := seen), p, AfterClaim(ph).value)
      else Leave(w.(anchor := seen), p)
  }

  function PublishStep(w: World, p: Pid): World
    requires p in w.procs
  {
    match w.procs[p].phase
    case Claimed(s) => SetPhase(w.(index := Some(w.procs[p].root)), p, Published(s))
    case _ => w
  }

  function CommitDrive(w: World, p: Pid, cmd: Command, s: State, boot: Boot, online: bool): (w': World)
    requires p in w.procs && cmd.Drive?
    ensures DeviceKept(w, w') && p in w'.procs && Committed(w'.procs[p].phase)
  {
    var joins := s.inFlight.Some?;
    if !joins && !MayDrive(s, boot) then Leave(w, p)
    else
      var request := InFlight(w.nextId, cmd.name, p, boot);
      var s' := if joins then s else s.(inFlight := Some(request));
      var op := Operation(s.owner.None? && cmd.name.changesDevice && online, cmd.name, online, joins, s');
      var written := Write(w, p, s', Admit(cmd.token, request, w.boot, online));
      written.(procs := w.procs[p := Process(w.procs[p].root, Active(op), 0)], nextId := w.nextId + 1)
  }

  function CommitObserve(w: World, p: Pid, token: Option<Token>, boot: Boot): (w': World)
    requires p in w.procs
    ensures DeviceKept(w, w') && p in w'.procs && Committed(w'.procs[p].phase)
  {
    var j := Disk(w, w.procs[p].root);
    if token.Some? && VerifyOwner(j, token) && j.owner.value.boot == boot then
      Leave(Write(w, p, j.(owner := Some(j.owner.value.(needsObservation := false))), Observe(token, boot)), p)
    else Leave(w, p)
  }

  function NewOwner(s: State, token: Token, boot: Boot): State {
    s.(generation := s.generation + 1, owner := Some(Owner(token, boot, s.generation + 1, true)))
  }

  function CommitOpen(w: World, p: Pid, s: State, boot: Boot): (w': World)
    requires p in w.procs
    ensures DeviceKept(w, w') && p in w'.procs && Committed(w'.procs[p].phase)
  {
    Leave(Write(w, p, NewOwner(s, w.nextId, boot), Open(w.nextId, boot)).(nextId := w.nextId + 1), p)
  }

  function CommitHandoff(w: World, p: Pid, token: Option<Token>, s: State, boot: Boot): (w': World)
    requires p in w.procs
    ensures DeviceKept(w, w') && p in w'.procs && Committed(w'.procs[p].phase)
  {
    var s' := NewOwner(s, w.nextId, boot).(handoff := Some(s.generation));
    Leave(Write(w, p, s', Handoff(token, w.nextId, boot)).(nextId := w.nextId + 1), p)
  }

  function CommitClose(w: World, p: Pid, token: Option<Token>, s: State): (w': World)
    requires p in w.procs
    ensures DeviceKept(w, w') && p in w'.procs && Committed(w'.procs[p].phase)
  {
    SetPhase(Write(w, p, s.(owner := None, generation := s.generation + 1), Close(token)), p, Unpublishing)
  }

  function CommitRecover(w: World, p: Pid, token: Option<Token>, s: State, boot: Boot): (w': World)
    requires p in w.procs
    ensures DeviceKept(w, w') && p in w'.procs && Committed(w'.procs[p].phase)
  {
    if s.inFlight.None? || boot == s.inFlight.value.boot || w.services != {} then Leave(w, p)
    else
      var owner := if s.owner.Some? then Some(s.owner.value.(boot := boot, needsObservation := true)) else None;
      var s' := s.(inFlight := None, lastCompletion := Some(Recovered(s.inFlight, boot)), owner := owner);
      var written := Write(w, p, s', Recover(token, boot));
      if owner.None? then SetPhase(written, p, Releasing) else Leave(written, p)
  }

  /** The journal write that makes a command take effect. */
  function CommitStep(w: World, p: Pid, stored: bool): (w': World)
    requires p in w.procs
    ensures DeviceKept(w, w') && p in w'.procs && (w' == w || Committed(w'.procs[p].phase))
  {
    var ph := w.procs[p].phase;
    if !ph.Ready? && !(ph.Entered? && ph.cmd.CloseSession?) then w
    else if !stored then Leave(w, p)
    else if ph.Entered? then CommitClose(w, p, ph.cmd.token, ph.state)
    else
      match ph.cmd
      case Drive(_, _) => CommitDrive(w, p, ph.cmd, ph.state, ph.boot, ph.online)
      case OpenSession => CommitOpen(w, p, ph.state, ph.boot)
      case ObserveSession(token) => CommitObserve(w, p, token, ph.boot)
      case HandoffSession(token) => CommitHandoff(w, p, token, ph.state, ph.boot)
      case RecoverSession(token) => CommitRecover(w, p, token, ph.state, ph.boot)
      case CloseSession(_) => w
  }

  function MutateStep(w: World, p: Pid, begin: bool): World
    requires p in w.procs
  {
    var q := w.procs[p];
    if !q.phase.Active? || (!begin && q.unsettled == 0) then w
    else w.(procs := w.procs[p := q.(unsettled := if begin then q.unsettled + 1 else q.unsettled - 1)])
  }

  function CompleteStep(w: World, p: Pid, result: Option<Failure>, stored: bool): (w': World)
    requires p in w.procs
    ensures DeviceKept(w, w')
  {
    var q := w.procs[p];
    if !q.phase.Active? then w
    else
      var op := q.phase.op;
      if Uncertain(result, op.name.changesDevice, q.unsettled) then SetPhase(w, p, Quarantined(op))
      else
        var (s', entry) :=
          if op.recoveryCleanup
          then (op.state.(lastCleanup := Some(result.None?)), FinishCleanup(result, op.name.changesDevice, q.unsettled))
          else (op.state.(inFlight := None, lastCompletion := Some(Finished(op.state.inFlight, result.None?))),
                Finish(p, result, op.name.changesDevice, q.unsettled, op.state.inFlight));
        if !stored then SetPhase(w, p, Unsaved(op.(state := s')))
        else if op.releaseAnchor && !op.recoveryCleanup then SetPhase(Write(w, p, s', entry), p, Releasing)
        else Leave(Write(w, p, s', entry), p)
  }

  /** End admission early; the lock goes before the marker is removed. */
  function PassiveStep(w: World, p: Pid, stored: bool): (w': World)
    requires p in w.procs
    ensures DeviceKept(w, w')
  {
    var q := w.procs[p];
    if !q.phase.Active? || q.unsettled > 0 || q.phase.op.recoveryCleanup then w
    else
      var op := q.phase.op;
      var s' := op.state.(inFlight := None, lastCompletion := Some(ReleasedEarly(op.state.inFlight)));
      if !stored then SetPhase(w, p, Active(op.(state := s')))
      else
        var written := Write(w, p, s', ReleaseEarly(p, 0, op.state.inFlight));
        if op.releaseAnchor then SetPhase(Unlock(written, p), p, LateReleasing) else Leave(written, p)
  }

  function UnpublishStep(w: World, p: Pid): World
    requires p in w.procs
  {
    if !w.procs[p].phase.Unpublishing? then w
    else if IndexAllows(w, w.procs[p].root) then SetPhase(w.(index := None), p, Releasing)
    else Leave(w, p)
  }

  function ReleaseStep(w: World, p: Pid, d: Delivery): World
    requires p in w.procs
  {
    if !w.procs[p].phase.Releasing? && !w.procs[p].phase.LateReleasing? then w
    else Leave(w.(anchor := ReleaseScript(w.anchor, w.procs[p].root, w.boot, d)), p)
  }

  function ActStep(w: World, p: Pid, a: Action): World
    requires p in w.procs
  {
    match a
    case ProbeBoot(reachable) => ProbeStep(w, p, reachable)
    case Claim(d) => ClaimStep(w, p, d)
    case Publish => PublishStep(w, p)
    case Commit(stored) => CommitStep(w, p, stored)
    case Mutate => MutateStep(w, p, true)
    case Settle => MutateStep(w, p, false)
    case Complete(result, stored) => CompleteStep(w, p, result, stored)
    case PassiveWait(stored) => PassiveStep(w, p, stored)
    case Unpublish => UnpublishStep(w, p)
    case Release(d) => ReleaseStep(w, p, d)
    case Crash => Leave(w, p)
  }

  /** One step; an event that is not enabled changes nothing. */
  function Next(w: World, e: Event): World {
    match e
    case Begin(p, r, cmd) => BeginStep(w, p, r, cmd)
    case Act(p, a) => if p in w.procs then ActStep(w, p, a) else w
    case Reboot => w.(boot := w.boot + 1)
    case ServiceStarts(s) => w.(services := w.services + {s})
    case ServiceStops(s) => w.(services := w.services - {s})
  }

  function Exec(w: World, es: seq<Event>): World {
    if es == [] then w else Next(Exec(w, es[..|es| - 1]), es[|es| - 1])
  }
}
