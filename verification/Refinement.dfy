/**
 Every interleaving refines a serial run: at each moment the journal on disk is
 what the commands committed so far, taken whole and one after another, write.
 */
module Refinement {
  import opened Basics
  import opened Journal
  import opened Protocol

  /** At most one process per root holds its lock, and holders are alive. */
  predicate LockInv(w: World) {
    && (forall p :: p in w.procs && HoldsLock(w.procs[p].phase) ==>
          w.procs[p].root in w.locks && w.locks[w.procs[p].root] == p)
    && (forall r :: r in w.locks ==>
          w.locks[r] in w.procs && w.procs[w.locks[r]].root == r && HoldsLock(w.procs[w.locks[r]].phase))
  }

  /** What an admitted operation remembers is the journal `j` on disk, unless
      its own early release failed to reach the disk. */
  predicate InSync(op: Operation, j: State, p: Pid) {
    && (op.releaseAnchor ==> j.owner.None? && !op.recoveryCleanup)
    && j.inFlight.Some?
    && (op.recoveryCleanup ==> j.owner.Some? && op.state == j)
    && (!op.recoveryCleanup ==>
          && j.inFlight.value.pid == p && j.inFlight.value.command == op.name
          && (op.state == j
              || op.state == j.(inFlight := None, lastCompletion := op.state.lastCompletion)))
  }

  /** The private copy of a lock holder against the journal of its root. */
  predicate Faithful(j: State, p: Pid, ph: Phase) {
    match ph
    case Entered(cmd, s) => s == InMemory(j, cmd) && JournalAllows(j, cmd)
    case Probed(cmd, s, _) => cmd.Drive? && s == InMemory(j, cmd) && JournalAllows(j, cmd)
    case Claimed(s) => s == j && JournalAllows(j, OpenSession)
    case Published(s) => s == j && JournalAllows(j, OpenSession)
    case Ready(cmd, s, _, _) => !cmd.CloseSession? && s == InMemory(j, cmd) && JournalAllows(j, cmd)
    case Active(op) => InSync(op, j, p)
    case Quarantined(op) => InSync(op, j, p)
    case Unsaved(op) => j.inFlight.Some? && (op.releaseAnchor ==> j.owner.None?)
    case Unpublishing => j.owner.None? && j.inFlight.None?
    case Releasing => j.owner.None? && j.inFlight.None?
    case _ => true
  }

  predicate CopyInv(w: World) {
    forall p :: p in w.procs ==> Faithful(Disk(w, w.procs[p].root), p, w.procs[p].phase)
  }

  ghost predicate LogInv(w: World) {
    forall r :: LegalRun(Log(w, r)) && Disk(w, r) == Replay(Log(w, r))
  }

  ghost predicate FreshInv(w: World) {
    forall r, i :: 0 <= i < |Log(w, r)| && Issued(Log(w, r)[i]).Some? ==> Issued(Log(w, r)[i]).value < w.nextId
  }

  ghost predicate Inv(w: World) {
    LockInv(w) && CopyInv(w) && LogInv(w) && FreshInv(w)
  }

  // ---- the two ways a process step may change the world -------------------

  /** Only process `p` and the lock it held change among locks and processes. */
  predicate OnlyProcess(w: World, w': World, p: Pid) {
    && p in w.procs && p in w'.procs && w'.procs == w.procs[p := w'.procs[p]]
    && w'.procs[p].root == w.procs[p].root
    && (HoldsLock(w'.procs[p].phase) ==> HoldsLock(w.procs[p].phase))
    && w'.locks == (if HoldsLock(w'.procs[p].phase) || !HoldsLock(w.procs[p].phase)
                    then w.locks else w.locks - {w.procs[p].root})
  }

  predicate Quiet(w: World, w': World, p: Pid) {
    && OnlyProcess(w, w', p)
    && w'.journals == w.journals && w'.logs == w.logs && w'.nextId == w.nextId
    && Faithful(Disk(w, w.procs[p].root), p, w'.procs[p].phase)
  }

  /** The request an admitted process, cleanup aside, remembers as its own. */
  predicate FromMemory(ph: Phase, recorded: Option<InFlight>) {
    ph.Active? && !ph.op.recoveryCleanup && recorded == ph.op.state.inFlight
  }

  /** A logged command is the one its process was carrying out, with the
      evidence (boot identity, unsettled mutations) that process had. */
  predicate Attributed(w: World, p: Pid, op: Op)
    requires p in w.procs
  {
    var q := w.procs[p];
    match op
    case Finish(pid, _, _, unsettled, recorded) =>
      pid == p && unsettled == q.unsettled && FromMemory(q.phase, recorded)
    case ReleaseEarly(pid, unsettled, recorded) =>
      pid == p && unsettled == q.unsettled && FromMemory(q.phase, recorded)
    case Admit(token, request, at, online) =>
      && q.phase.Ready? && q.phase.cmd == Drive(token, request.command) && request.pid == p
      && request.boot == q.phase.boot && at == w.boot && online == q.phase.online
    case Open(_, boot) => q.phase.Ready? && q.phase.cmd.OpenSession? && q.phase.boot == boot
    case Observe(token, boot) => q.phase.Ready? && q.phase.cmd == ObserveSession(token) && q.phase.boot == boot
    case Handoff(token, _, boot) => q.phase.Ready? && q.phase.cmd == HandoffSession(token) && q.phase.boot == boot
    case Recover(token, boot) => q.phase.Ready? && q.phase.cmd == RecoverSession(token) && q.phase.boot == boot
    case Close(token) => q.phase.Entered? && q.phase.cmd == CloseSession(token)
    case FinishCleanup(_, changes, unsettled) =>
      q.phase.Active? && changes == q.phase.op.name.changesDevice && unsettled == q.unsettled
  }

  /** The lock holder replaced the journal of its root by the effect of the
      whole command `op` on the journal that is on disk at that moment. */
  predicate Writes(w: World, w': World, p: Pid, op: Op) {
    && OnlyProcess(w, w', p) && HoldsLock(w.procs[p].phase)
    && var r := w.procs[p].root;
    && Legal(Disk(w, r), op)
    && w'.journals == w.journals[r := Apply(Disk(w, r), op)]
    && w'.logs == w.logs[r := Log(w, r) + [op]]
    && w.nextId <= w'.nextId
    && (Issued(op).Some? ==> Issued(op).value == w.nextId < w'.nextId)
    && Attributed(w, p, op)
    && Faithful(Apply(Disk(w, r), op), p, w'.procs[p].phase)
  }

  predicate Known(w: World, p: Pid) {
    p in w.procs && Faithful(Disk(w, w.procs[p].root), p, w.procs[p].phase)
  }

  lemma CommitDriveShape(w: World, p: Pid) returns (op: Op)
    requires Known(w, p) && w.procs[p].phase.Ready? && w.procs[p].phase.cmd.Drive?
    requires w.procs[p].phase.state.inFlight.Some? || MayDrive(w.procs[p].phase.state, w.procs[p].phase.boot)
    ensures Writes(w, CommitStep(w, p, true), p, op)
  {
    var ph := w.procs[p].phase;
    op := Admit(ph.cmd.token, InFlight(w.nextId, ph.cmd.name, p, ph.boot), w.boot, ph.online);
    var j := Disk(w, w.procs[p].root);
    assert Legal(j, op);
    assert CommitStep(w, p, true).procs[p].phase.op.state == Apply(j, op);
  }

  /** The process ends without writing; the marker may have changed. */
  lemma LeaveShape(w: World, p: Pid, w': World)
    requires Known(w, p)
    requires w'.journals == w.journals && w'.logs == w.logs && w'.nextId == w.nextId
    requires w'.procs == w.procs[p := w.procs[p].(phase := Exited)] && w'.locks == Unlock(w, p).locks
    ensures Quiet(w, w', p)
  {
  }

  /** The process moves on under its lock without writing. */
  lemma MoveShape(w: World, p: Pid, w': World, ph: Phase)
    requires Known(w, p) && HoldsLock(w.procs[p].phase) && HoldsLock(ph)
    requires w'.journals == w.journals && w'.logs == w.logs && w'.nextId == w.nextId && w'.locks == w.locks
    requires w'.procs == w.procs[p := w.procs[p].(phase := ph)]
    requires Faithful(Disk(w, w.procs[p].root), p, ph)
    ensures Quiet(w, w', p)
  {
  }

  lemma CommitIssueShape(w: World, p: Pid) returns (op: Op)
    requires Known(w, p) && w.procs[p].phase.Ready?
    requires w.procs[p].phase.cmd.OpenSession? || w.procs[p].phase.cmd.HandoffSession?
    ensures Writes(w, CommitStep(w, p, true), p, op)
  {
    var ph := w.procs[p].phase;
    op := if ph.cmd.OpenSession? then Open(w.nextId, ph.boot) else Handoff(ph.cmd.token, w.nextId, ph.boot);
    assert Legal(Disk(w, w.procs[p].root), op);
  }

  lemma CommitObserveShape(w: World, p: Pid) returns (op: Op)
    requires Known(w, p) && w.procs[p].phase.Ready? && w.procs[p].phase.cmd.ObserveSession?
    ensures Quiet(w, CommitStep(w, p, true), p) || Writes(w, CommitStep(w, p, true), p, op)
  {
    var ph, j := w.procs[p].phase, Disk(w, w.procs[p].root);
    op := Observe(ph.cmd.token, ph.boot);
    if VerifyOwner(j, ph.cmd.token) && j.owner.value.boot == ph.boot {
      assert Writes(w, CommitStep(w, p, true), p, op);
    } else {
      LeaveShape(w, p, CommitStep(w, p, true));
    }
  }

  lemma CommitRecoverShape(w: World, p: Pid) returns (op: Op)
    requires Known(w, p) && w.procs[p].phase.Ready? && w.procs[p].phase.cmd.RecoverSession?
    ensures Quiet(w, CommitStep(w, p, true), p) || Writes(w, CommitStep(w, p, true), p, op)
  {
    var ph := w.procs[p].phase;
    op := Recover(ph.cmd.token, ph.boot);
    if ph.boot == ph.state.inFlight.value.boot || w.services != {} {
      LeaveShape(w, p, CommitStep(w, p, true));
    } else {
      assert Legal(Disk(w, w.procs[p].root), op);
      assert Writes(w, CommitStep(w, p, true), p, op);
    }
  }

  lemma CommitCloseShape(w: World, p: Pid) returns (op: Op)
    requires Known(w, p) && w.procs[p].phase.Entered? && w.procs[p].phase.cmd.CloseSession?
    ensures Writes(w, CommitStep(w, p, true), p, op)
  {
    op := Close(w.procs[p].phase.cmd.token);
  }

  lemma CommitShape(w: World, p: Pid, stored: bool) returns (op: Op)
    requires Known(w, p)
    ensures Quiet(w, CommitStep(w, p, stored), p) || Writes(w, CommitStep(w, p, stored), p, op)
  {
    var ph := w.procs[p].phase;
    op := Close(None);
    if !ph.Ready? && !(ph.Entered? && ph.cmd.CloseSession?) {
      assert CommitStep(w, p, stored) == w;
    } else if !stored {
      LeaveShape(w, p, CommitStep(w, p, stored));
    } else if ph.Entered? {
      op := CommitCloseShape(w, p);
    } else if ph.cmd.OpenSession? || ph.cmd.HandoffSession? {
      op := CommitIssueShape(w, p);
    } else if ph.cmd.ObserveSession? {
      op := CommitObserveShape(w, p);
    } else if ph.cmd.RecoverSession? {
      op := CommitRecoverShape(w, p);
    } else if ph.state.inFlight.Some? || MayDrive(ph.state, ph.boot) {
      op := CommitDriveShape(w, p);
    } else {
      LeaveShape(w, p, CommitStep(w, p, stored));
    }
  }

  lemma CleanupWrites(w: World, p: Pid, result: Option<Failure>) returns (op: Op)
    requires Known(w, p) && w.procs[p].phase.Active? && w.procs[p].phase.op.recoveryCleanup
    requires !Uncertain(result, w.procs[p].phase.op.name.changesDevice, w.procs[p].unsettled)
    ensures Writes(w, CompleteStep(w, p, result, true), p, op)
  {
    hide Uncertain;
    var q := w.procs[p];
    op := FinishCleanup(result, q.phase.op.name.changesDevice, q.unsettled);
    assert Legal(Disk(w, q.root), op);
  }

  lemma CompleteWrites(w: World, p: Pid, result: Option<Failure>) returns (op: Op)
    requires Known(w, p) && w.procs[p].phase.Active? && !w.procs[p].phase.op.recoveryCleanup
    requires !Uncertain(result, w.procs[p].phase.op.name.changesDevice, w.procs[p].unsettled)
    ensures Writes(w, CompleteStep(w, p, result, true), p, op)
  {
    hide Uncertain;
    var q, j := w.procs[p], Disk(w, w.procs[p].root);
    op := Finish(p, result, q.phase.op.name.changesDevice, q.unsettled, q.phase.op.state.inFlight);
    assert Legal(j, op);
    assert Disk(CompleteStep(w, p, result, true), q.root) == Apply(j, op);
  }

  lemma CompleteShape(w: World, p: Pid, result: Option<Failure>, stored: bool) returns (op: Op)
    requires Known(w, p)
    ensures Quiet(w, CompleteStep(w, p, result, stored), p) || Writes(w, CompleteStep(w, p, result, stored), p, op)
  {
    var q, w' := w.procs[p], CompleteStep(w, p, result, stored);
    op := Close(None);
    if !q.phase.Active? {
      assert w' == w;
    } else if Uncertain(result, q.phase.op.name.changesDevice, q.unsettled) || !stored {
      MoveShape(w, p, w', w'.procs[p].phase);
    } else if q.phase.op.recoveryCleanup {
      op := CleanupWrites(w, p, result);
    } else {
      op := CompleteWrites(w, p, result);
    }
  }

  lemma PassiveWrites(w: World, p: Pid) returns (op: Op)
    requires Known(w, p) && w.procs[p].phase.Active?
    requires w.procs[p].unsettled == 0 && !w.procs[p].phase.op.recoveryCleanup
    ensures Writes(w, PassiveStep(w, p, true), p, op)
  {
    var q, j := w.procs[p], Disk(w, w.procs[p].root);
    op := ReleaseEarly(p, 0, q.phase.op.state.inFlight);
    assert Legal(j, op);
    assert Disk(PassiveStep(w, p, true), q.root) == Apply(j, op);
  }

  lemma PassiveShape(w: World, p: Pid, stored: bool) returns (op: Op)
    requires Known(w, p)
    ensures Quiet(w, PassiveStep(w, p, stored), p) || Writes(w, PassiveStep(w, p, stored), p, op)
  {
    var q, w' := w.procs[p], PassiveStep(w, p, stored);
    op := Close(None);
    if !q.phase.Active? || q.unsettled > 0 || q.phase.op.recoveryCleanup {
      assert w' == w;
    } else if !stored {
      MoveShape(w, p, w', w'.procs[p].phase);
    } else {
      op := PassiveWrites(w, p);
    }
  }

  lemma ProbeShape(w: World, p: Pid, reachable: bool)
    requires Known(w, p)
    ensures Quiet(w, ProbeStep(w, p, reachable), p)
  {
    var w', next := ProbeStep(w, p, reachable), AfterProbe(w, w.procs[p].root, w.procs[p].phase, reachable);
    if next == Some(Exited) {
      LeaveShape(w, p, w');
    } else if next.Some? {
      MoveShape(w, p, w', next.value);
    }
  }

  lemma ClaimShape(w: World, p: Pid, d: Delivery)
    requires Known(w, p)
    ensures Quiet(w, ClaimStep(w, p, d), p)
  {
    var w', ph := ClaimStep(w, p, d), w.procs[p].phase;
    if AfterClaim(ph).Some? {
      if w'.procs[p].phase.Exited? {
        LeaveShape(w, p, w');
      } else {
        MoveShape(w, p, w', AfterClaim(ph).value);
      }
    }
  }

  lemma PublishShape(w: World, p: Pid)
    requires Known(w, p)
    ensures Quiet(w, PublishStep(w, p), p)
  {
  }

  lemma MutateShape(w: World, p: Pid, begin: bool)
    requires Known(w, p)
    ensures Quiet(w, MutateStep(w, p, begin), p)
  {
  }

  lemma UnpublishShape(w: World, p: Pid)
    requires Known(w, p)
    ensures Quiet(w, UnpublishStep(w, p), p)
  {
    var w' := UnpublishStep(w, p);
    if w'.procs[p].phase.Exited? {
      if w' != w {
        LeaveShape(w, p, w');
      }
    } else if w.procs[p].phase.Unpublishing? {
      MoveShape(w, p, w', Releasing);
    }
  }

  lemma ReleaseShape(w: World, p: Pid, d: Delivery)
    requires Known(w, p)
    ensures Quiet(w, ReleaseStep(w, p, d), p)
  {
    if w.procs[p].phase.Releasing? || w.procs[p].phase.LateReleasing? {
      LeaveShape(w, p, ReleaseStep(w, p, d));
    }
  }

  /** A process step leaves every journal alone or commits one whole command. */
  lemma ActShape(w: World, p: Pid, a: Action) returns (op: Op)
    requires Known(w, p)
    ensures Quiet(w, ActStep(w, p, a), p) || Writes(w, ActStep(w, p, a), p, op)
  {
    op := Close(None);
    match a
    case ProbeBoot(reachable) => ProbeShape(w, p, reachable);
    case Claim(d) => ClaimShape(w, p, d);
    case Publish => PublishShape(w, p);
    case Commit(stored) => op := CommitShape(w, p, stored);
    case Mutate => MutateShape(w, p, true);
    case Settle => MutateShape(w, p, false);
    case Complete(result, stored) => op := CompleteShape(w, p, result, stored);
    case PassiveWait(stored) => op := PassiveShape(w, p, stored);
    case Unpublish => UnpublishShape(w, p);
    case Release(d) => ReleaseShape(w, p, d);
    case Crash => LeaveShape(w, p, Leave(w, p));
  }

  /** A process step changes no other process. */
  lemma OthersStay(w: World, p: Pid, a: Action)
    requires Inv(w) && p in w.procs
    ensures
      var w' := ActStep(w, p, a);
      p in w'.procs && w'.procs == w.procs[p := w'.procs[p]] && w'.procs[p].root == w.procs[p].root
  {
    hide ActStep;
    assert Known(w, p);
    var op := ActShape(w, p, a);
  }

  // ---- where a process goes ---------------------------------------------------

  lemma CompletePhases(w: World, p: Pid, result: Option<Failure>, stored: bool)
    requires p in w.procs
    ensures p in CompleteStep(w, p, result, stored).procs
    ensures
      var ph, ph' := w.procs[p].phase, CompleteStep(w, p, result, stored).procs[p].phase;
      || ph' == ph || ph'.Exited? || ph'.Releasing?
      || ((ph'.Quarantined? || ph'.Unsaved?) && ph.Active? && ph'.op.releaseAnchor == ph.op.releaseAnchor)
  {
    hide Uncertain, HoldsLock;
  }

  lemma PassivePhases(w: World, p: Pid, stored: bool)
    requires p in w.procs
    ensures p in PassiveStep(w, p, stored).procs
    ensures
      var ph, ph' := w.procs[p].phase, PassiveStep(w, p, stored).procs[p].phase;
      || ph' == ph || ph'.Exited? || ph'.LateReleasing?
      || (ph'.Active? && ph.Active? && ph'.op.releaseAnchor == ph.op.releaseAnchor)
  {
    hide HoldsLock;
  }

  // ---- both ways keep the invariant ----------------------------------------

  lemma SameDisk(w: World, w': World)
    requires w'.journals == w.journals && w'.logs == w.logs
    ensures forall r :: Disk(w', r) == Disk(w, r) && Log(w', r) == Log(w, r)
  {
  }

  lemma OtherDisk(w: World, w': World, p: Pid, op: Op)
    requires Writes(w, w', p, op)
    ensures forall r :: r != w.procs[p].root ==> Disk(w', r) == Disk(w, r) && Log(w', r) == Log(w, r)
    ensures Disk(w', w.procs[p].root) == Apply(Disk(w, w.procs[p].root), op)
    ensures Log(w', w.procs[p].root) == Log(w, w.procs[p].root) + [op]
  {
  }

  lemma LocksKept(w: World, w': World, p: Pid)
    requires LockInv(w) && OnlyProcess(w, w', p)
    ensures LockInv(w')
  {
  }

  lemma CopiesKept(w: World, w': World, p: Pid, op: Op)
    requires LockInv(w) && CopyInv(w) && Writes(w, w', p, op)
    ensures CopyInv(w')
  {
    OtherDisk(w, w', p, op);
    forall q | q in w'.procs ensures Faithful(Disk(w', w'.procs[q].root), q, w'.procs[q].phase) {
      if q != p {
        assert w'.procs[q] == w.procs[q];
        assert Known(w, q);
      }
    }
  }

  lemma LogsKept(w: World, w': World, p: Pid, op: Op)
    requires LogInv(w) && FreshInv(w) && Writes(w, w', p, op)
    ensures LogInv(w') && FreshInv(w')
  {
    OtherDisk(w, w', p, op);
    var r := w.procs[p].root;
    assert (Log(w, r) + [op])[..|Log(w, r)|] == Log(w, r);
    assert LegalRun(Log(w', r));
  }

  lemma ActInv(w: World, p: Pid, a: Action)
    requires Inv(w) && p in w.procs
    ensures Inv(ActStep(w, p, a))
  {
    var w' := ActStep(w, p, a);
    assert Known(w, p);
    var op := ActShape(w, p, a);
    LocksKept(w, w', p);
    if Quiet(w, w', p) {
      SameDisk(w, w');
    } else {
      CopiesKept(w, w', p, op);
      LogsKept(w, w', p, op);
    }
  }

  lemma BeginInv(w: World, p: Pid, r: Root, cmd: Command)
    requires Inv(w)
    ensures Inv(BeginStep(w, p, r, cmd))
  {
    hide BeginStep, LockInv, CopyInv, HoldsLock, Faithful, LegalRun, Replay;
    var w' := BeginStep(w, p, r, cmd);
    BeginShape(w, p, r, cmd);
    if w' != w {
      BeginLocks(w, p, r, w'.procs[p].phase, w');
      BeginCopies(w, p, r, w'.procs[p].phase, w');
      SameDisk(w, w');
    }
  }

  /** A command that starts either leaves at once or holds the free lock of its root. */
  lemma BeginShape(w: World, p: Pid, r: Root, cmd: Command)
    ensures
      var w' := BeginStep(w, p, r, cmd);
      w' != w ==>
        && p !in w.procs && r !in w.locks && p in w'.procs
        && w'.journals == w.journals && w'.logs == w.logs && w'.nextId == w.nextId
        && w'.procs == w.procs[p := Process(r, w'.procs[p].phase, 0)]
        && w'.locks == (if HoldsLock(w'.procs[p].phase) then w.locks[r := p] else w.locks)
        && Faithful(Disk(w, r), p, w'.procs[p].phase)
  {
    hide JournalAllows, InMemory;
  }

  lemma BeginLocks(w: World, p: Pid, r: Root, ph: Phase, w': World)
    requires LockInv(w) && p !in w.procs && r !in w.locks
    requires w'.procs == w.procs[p := Process(r, ph, 0)]
    requires w'.locks == if HoldsLock(ph) then w.locks[r := p] else w.locks
    ensures LockInv(w')
  {
  }

  lemma BeginCopies(w: World, p: Pid, r: Root, ph: Phase, w': World)
    requires CopyInv(w) && p !in w.procs && w'.journals == w.journals
    requires w'.procs == w.procs[p := Process(r, ph, 0)] && Faithful(Disk(w, r), p, ph)
    ensures CopyInv(w')
  {
    forall q | q in w'.procs ensures Faithful(Disk(w', w'.procs[q].root), q, w'.procs[q].phase) {
      if q != p {
        assert Known(w, q);
      }
    }
  }

  /** What no process step does: it writes nothing and at most starts a process. */
  lemma EnterPhases(w: World, e: Event)
    requires !e.Act?
    ensures Next(w, e).journals == w.journals && Next(w, e).logs == w.logs
    ensures Next(w, e).anchor == w.anchor && Next(w, e).index == w.index && w.boot <= Next(w, e).boot
    ensures forall q :: q in Next(w, e).procs ==>
      (q in w.procs && Next(w, e).procs[q] == w.procs[q])
      || Next(w, e).procs[q].phase.Entered? || Next(w, e).procs[q].phase.Exited?
  {
    hide JournalAllows, InMemory;
  }

  lemma StepInv(w: World, e: Event)
    requires Inv(w)
    ensures Inv(Next(w, e))
  {
    match e
    case Begin(p, r, cmd) => BeginInv(w, p, r, cmd);
    case Act(p, a) => if p in w.procs { ActInv(w, p, a); }
    case _ => SameDisk(w, Next(w, e));
  }

  /** The serial refinement: after any events, the journal of every root is the
      outcome of the legal serial run of the commands it committed. */
  lemma {:induction false} Reachable(es: seq<Event>)
    ensures Inv(Exec(INIT, es))
  {
    if es != [] {
      Reachable(es[..|es| - 1]);
      StepInv(Exec(INIT, es[..|es| - 1]), es[|es| - 1]);
    }
  }
}
