/**
 The durable ownership journal of one device under one authority, and the
 whole commands that may rewrite it, taken one at a time (cli/src/runtime.rs).

 `Legal` says when a command may commit; `Apply` gives the journal it writes.
 Agent labels, wall-clock times and process numbers used only for display are
 not kept.  `Unavailable` stands for the boot identity of an unreachable device.
 */
module Journal {
  import opened Basics

  type Token = nat
  type Pid = nat

  datatype Boot = At(id: nat) | Unavailable

  /** The command paths the protocol tells apart; `NetControl` is any other
      `net ...` leaf, `Other` any remaining command. */
  datatype Path =
    | NetStop | NetStart | NetCheck | NetTrust | NetControl
    | VideoStop | VideoStatus | VideoMark
    | Disconnect | VerifyRecover | Other

  /** A command path together with its catalogued effect on the device. */
  datatype CommandName = CommandName(path: Path, changesDevice: bool)

  datatype Owner = Owner(token: Token, boot: Boot, generation: nat, needsObservation: bool)

  datatype InFlight = InFlight(requestId: nat, command: CommandName, pid: Pid, boot: Boot)

  datatype Completion =
    | Finished(request: Option<InFlight>, ok: bool)
    | ReleasedEarly(request: Option<InFlight>)
    | ClearedStale(request: Option<InFlight>)
    | Recovered(request: Option<InFlight>, newBoot: Boot)

  datatype State = State(
    generation: nat,
    owner: Option<Owner>,
    inFlight: Option<InFlight>,
    lastCompletion: Option<Completion>,
    lastCleanup: Option<bool>,
    handoff: Option<nat>)

  /** A journal file that does not exist yet reads as this. */
  const EMPTY := State(0, None, None, None, None, None)

  // ---- error evidence -------------------------------------------------

  /** One link of an error chain, reduced to what the outcome rules look at. */
  datatype Cause =
    | OutcomeUnknown
    | Diagnostic(code: Code, waitingForWorker: bool, runnerNeverStarted: bool)
    | OtherCause

  datatype Code = TestInterrupted | VerificationUnknown | RunnerFailed | AdbTimeout | OtherCode

  type Failure = seq<Cause>

  /** An explicit unknown, or an ADB call that timed out after it had started. */
  predicate IsEvidence(c: Cause) {
    c.OutcomeUnknown? || (c.Diagnostic? && c.code.AdbTimeout? && !c.waitingForWorker)
  }

  predicate DeliveryUnknown(f: Failure) {
    exists i :: 0 <= i < |f| && IsEvidence(f[i])
  }

  function FirstDiagnostic(f: Failure): Option<Cause> {
    if f == [] then None else if f[0].Diagnostic? then Some(f[0]) else FirstDiagnostic(f[1..])
  }

  /** Whether a failed command may have left an unknown effect on the device. */
  predicate OutcomeUncertain(f: Failure, changesDevice: bool, unsettled: nat) {
    match FirstDiagnostic(f)
    case Some(Diagnostic(TestInterrupted, _, _)) => true
    case Some(Diagnostic(VerificationUnknown, _, _)) => true
    case Some(Diagnostic(RunnerFailed, _, neverStarted)) => !neverStarted
    case _ => changesDevice && (unsettled > 0 || DeliveryUnknown(f))
  }

  predicate Uncertain(result: Option<Failure>, changesDevice: bool, unsettled: nat) {
    result.Some? && OutcomeUncertain(result.value, changesDevice, unsettled)
  }

  // ---- admission rules ------------------------------------------------

  predicate IsCleanup(path: Path) {
    path.NetStop? || path.VideoStop? || path.Disconnect? || path.VerifyRecover?
  }

  predicate AllowsOfflineControl(path: Path) {
    path.NetStop? || path.NetControl? || path.VideoStatus? || path.VideoStop? || path.VideoMark? || path.Disconnect?
  }

  /** Some(token) must be the owner's; no token is allowed only without an owner. */
  predicate VerifyOwner(s: State, token: Option<Token>) {
    if s.owner.Some? then token == Some(s.owner.value.token) else token.None?
  }

  /** Without an owner, the entry of a dead process is dropped as "unknown". */
  function ClearStale(s: State): State {
    if s.owner.None? && s.inFlight.Some?
    then s.(inFlight := None, lastCompletion := Some(ClearedStale(s.inFlight)))
    else s
  }

  /** A cleanup command joins a quarantined session without replacing its entry. */
  predicate JoinsQuarantine(s: State, path: Path) {
    s.inFlight.Some? && IsCleanup(path)
  }

  predicate MayDrive(s: State, boot: Boot) {
    s.owner.Some? ==> s.owner.value.boot == boot && !s.owner.value.needsObservation
  }

  // ---- whole commands -------------------------------------------------

  /**
   `at` and `online` of an admission are kept for history only: the boot at which
   the entry was really written, and whether the device had answered.
   */
  datatype Op =
    | Admit(token: Option<Token>, request: InFlight, at: nat, online: bool)
    | Finish(pid: Pid, result: Option<Failure>, changesDevice: bool, unsettled: nat, recorded: Option<InFlight>)
    | FinishCleanup(result: Option<Failure>, changesDevice: bool, unsettled: nat)
    | ReleaseEarly(pid: Pid, unsettled: nat, recorded: Option<InFlight>)
    | Open(issued: Token, boot: Boot)
    | Observe(token: Option<Token>, boot: Boot)
    | Handoff(token: Option<Token>, issued: Token, boot: Boot)
    | Recover(token: Option<Token>, boot: Boot)
    | Close(token: Option<Token>)

  /** The credential a command presents, for the commands that present one. */
  function Presented(op: Op): Option<Token> {
    if op.Admit? || op.Observe? || op.Handoff? || op.Recover? || op.Close? then op.token else None
  }

  function Issued(op: Op): Option<Token> {
    if op.Open? || op.Handoff? then Some(op.issued) else None
  }

  predicate Legal(s: State, op: Op) {
    match op
    case Admit(token, request, _, _) =>
      var c := ClearStale(s);
      && VerifyOwner(s, token)
      && (JoinsQuarantine(c, request.command.path) || (c.inFlight.None? && MayDrive(c, request.boot)))
    case Finish(pid, result, changes, unsettled, recorded) =>
      && s.inFlight.Some? && s.inFlight.value.pid == pid
      && changes == s.inFlight.value.command.changesDevice && !Uncertain(result, changes, unsettled)
      && (recorded == s.inFlight || recorded.None?)
    case FinishCleanup(result, changes, unsettled) =>
      s.owner.Some? && s.inFlight.Some? && !Uncertain(result, changes, unsettled)
    case ReleaseEarly(pid, unsettled, recorded) =>
      && s.inFlight.Some? && s.inFlight.value.pid == pid && unsettled == 0
      && (recorded == s.inFlight || recorded.None?)
    case Open(_, _) => s.inFlight.None? && s.owner.None?
    case Observe(token, boot) =>
      token.Some? && VerifyOwner(s, token) && s.owner.value.boot == boot
    case Handoff(token, _, _) => s.inFlight.None? && s.owner.Some? && VerifyOwner(s, token)
    case Recover(token, boot) => VerifyOwner(s, token) && s.inFlight.Some? && boot != s.inFlight.value.boot
    case Close(token) => s.inFlight.None? && s.owner.Some? && VerifyOwner(s, token)
  }

  function Apply(s: State, op: Op): State
    requires Legal(s, op)
  {
    match op
    case Admit(_, request, _, _) =>
      var c := ClearStale(s);
      if JoinsQuarantine(c, request.command.path) then c else c.(inFlight := Some(request))
    case Finish(_, result, _, _, recorded) =>
      s.(inFlight := None, lastCompletion := Some(Finished(recorded, result.None?)))
    case FinishCleanup(result, _, _) => s.(lastCleanup := Some(result.None?))
    case ReleaseEarly(_, _, recorded) =>
      s.(inFlight := None, lastCompletion := Some(ReleasedEarly(recorded)))
    case Open(issued, boot) =>
      s.(generation := s.generation + 1, owner := Some(Owner(issued, boot, s.generation + 1, true)))
    case Observe(_, _) => s.(owner := Some(s.owner.value.(needsObservation := false)))
    case Handoff(_, issued, boot) =>
      s.(generation := s.generation + 1,
         owner := Some(Owner(issued, boot, s.generation + 1, true)),
         handoff := Some(s.generation))
    case Recover(_, boot) =>
      s.(inFlight := None,
         lastCompletion := Some(Recovered(s.inFlight, boot)),
         owner := if s.owner.Some? then Some(s.owner.value.(boot := boot, needsObservation := true)) else None)
    case Close(_) => s.(owner := None, generation := s.generation + 1)
  }

  // ---- runs of whole commands ------------------------------------------

  /** Tokens come from `fresh_id`: no earlier command issued the same one. */
  predicate FreshIn(op: Op, earlier: seq<Op>) {
    Issued(op).Some? ==> forall i :: 0 <= i < |earlier| ==> Issued(earlier[i]) != Issued(op)
  }

  /** Every command was legal in the journal its predecessors had written. */
  predicate LegalRun(ops: seq<Op>)
    decreases |ops|, 0
  {
    ops != [] ==>
      var prefix, last := ops[..|ops| - 1], ops[|ops| - 1];
      LegalRun(prefix) && Legal(Replay(prefix), last) && FreshIn(last, prefix)
  }

  /** The journal after a legal run, starting from a missing file. */
  function Replay(ops: seq<Op>): State
    requires LegalRun(ops)
    decreases |ops|, 1
  {
    if ops == [] then EMPTY else Apply(Replay(ops[..|ops| - 1]), ops[|ops| - 1])
  }
}
