/** Recorded boot identities never lie in the future.  A recovery only compares
    identities, so it follows a reboot where the identity recorded with the request
    was that of the boot at which it was admitted. */
module BootOrder {
  import opened Basics
  import opened Journal
  import opened JournalHistory
  import opened Protocol
  import opened Refinement
  import opened Guarantees

  predicate Past(b: Boot, now: nat) {
    b.At? ==> b.id <= now
  }

  predicate JournalBoots(j: State, now: nat) {
    && (j.owner.Some? ==> j.owner.value.boot.At? && Past(j.owner.value.boot, now))
    && (j.inFlight.Some? ==> Past(j.inFlight.value.boot, now))
  }

  /** A boot identity read under the lock is no older than the journal's. */
  predicate PhaseBoots(ph: Phase, now: nat) {
    ph.Probed? || ph.Ready? ==>
      && Past(ph.boot, now)
      && (ph.boot.At? || (ph.Ready? && ph.cmd.Drive?))
      && (ph.state.inFlight.Some? && ph.boot.At? && !(ph.Ready? && !ph.online) ==>
            Past(ph.state.inFlight.value.boot, ph.boot.id))
      && (ph.Ready? && !ph.online ==> ph.cmd.Drive? && AllowsOfflineControl(ph.cmd.name.path))
      && (ph.Ready? && ph.online ==> ph.boot.At?)
  }

  ghost predicate BootInv(w: World) {
    && (forall r: Root :: JournalBoots(Disk(w, r), w.boot))
    && (forall p :: p in w.procs ==> PhaseBoots(w.procs[p].phase, w.boot))
    && (w.anchor.Ownerless? ==> w.anchor.madeAt <= w.boot)
  }

  lemma ApplyBoots(j: State, op: Op, w: World, p: Pid)
    requires p in w.procs && Legal(j, op) && Attributed(w, p, op)
    requires JournalBoots(j, w.boot) && PhaseBoots(w.procs[p].phase, w.boot)
    ensures JournalBoots(Apply(j, op), w.boot)
  {
  }

  lemma ProbeBoots(w: World, p: Pid, reachable: bool)
    requires Known(w, p) && JournalBoots(Disk(w, w.procs[p].root), w.boot) && PhaseBoots(w.procs[p].phase, w.boot)
    ensures PhaseBoots(ProbeStep(w, p, reachable).procs[p].phase, w.boot)
  {
    var next := AfterProbe(w, w.procs[p].root, w.procs[p].phase, reachable);
    assert next.Some? ==> ProbeStep(w, p, reachable).procs[p].phase == next.value;
  }

  lemma ActPhaseBoots(w: World, p: Pid, a: Action)
    requires Known(w, p) && JournalBoots(Disk(w, w.procs[p].root), w.boot) && PhaseBoots(w.procs[p].phase, w.boot)
    ensures PhaseBoots(ActStep(w, p, a).procs[p].phase, w.boot)
  {
    hide CommitStep, CompleteStep, PassiveStep, ProbeStep, ClaimStep, Faithful, HoldsLock, JournalBoots;
    match a
    case ProbeBoot(reachable) => ProbeBoots(w, p, reachable);
    case Claim(d) => ClaimBoots(w, p, d);
    case Complete(result, stored) => CompletePhases(w, p, result, stored);
    case PassiveWait(stored) => PassivePhases(w, p, stored);
    case _ =>
  }

  lemma ClaimBoots(w: World, p: Pid, d: Delivery)
    requires p in w.procs && PhaseBoots(w.procs[p].phase, w.boot)
    ensures PhaseBoots(ClaimStep(w, p, d).procs[p].phase, w.boot)
  {
    hide ClaimScript, ReadAccepts, WantsClaim, HoldsLock;
  }

  /** The boot stays, and a marker left without an owner was made at this boot. */
  predicate MarkerDated(w: World, w': World) {
    && w'.boot == w.boot
    && (w'.anchor.Ownerless? ==> w'.anchor == w.anchor || w'.anchor.madeAt == w.boot)
  }

  lemma ClaimDated(w: World, p: Pid, d: Delivery)
    requires p in w.procs
    ensures MarkerDated(w, ClaimStep(w, p, d))
  {
    hide AfterClaim, WantsClaim, ReadAccepts, HoldsLock;
  }

  lemma ReleaseDated(w: World, p: Pid, d: Delivery)
    requires p in w.procs
    ensures MarkerDated(w, ReleaseStep(w, p, d))
  {
    hide HoldsLock;
  }

  lemma ProbeDated(w: World, p: Pid, reachable: bool)
    requires p in w.procs
    ensures MarkerDated(w, ProbeStep(w, p, reachable))
  {
    hide AfterProbe, HoldsLock;
  }

  lemma ActMarkerBoot(w: World, p: Pid, a: Action)
    requires p in w.procs
    ensures MarkerDated(w, ActStep(w, p, a))
  {
    hide ClaimStep, ReleaseStep, ProbeStep, CommitStep, CompleteStep, PassiveStep, HoldsLock;
    match a
    case Claim(d) => ClaimDated(w, p, d);
    case Release(d) => ReleaseDated(w, p, d);
    case ProbeBoot(reachable) => ProbeDated(w, p, reachable);
    case _ =>
  }

  lemma ActBoots(w: World, p: Pid, a: Action)
    requires Inv(w) && BootInv(w) && p in w.procs
    ensures BootInv(ActStep(w, p, a))
  {
    hide ActStep, LegalRun, PhaseBoots, JournalBoots, Legal, Apply;
    var w' := ActStep(w, p, a);
    assert Known(w, p) && JournalBoots(Disk(w, w.procs[p].root), w.boot);
    var op := ActShape(w, p, a);
    ActPhaseBoots(w, p, a);
    ActMarkerBoot(w, p, a);
    if Quiet(w, w', p) {
      SameDisk(w, w');
    } else {
      OtherDisk(w, w', p, op);
      ApplyBoots(Disk(w, w.procs[p].root), op, w, p);
    }
  }

  lemma EnterBoots(w: World, e: Event)
    requires BootInv(w) && !e.Act?
    ensures BootInv(Next(w, e))
  {
    hide Next;
    EnterPhases(w, e);
    SameDisk(w, Next(w, e));
  }

  lemma StepBoots(w: World, e: Event)
    requires Inv(w) && BootInv(w)
    ensures BootInv(Next(w, e))
  {
    hide ActStep, Inv, BootInv, BeginStep;
    if e.Act? {
      if e.p in w.procs {
        ActBoots(w, e.p, e.action);
      }
    } else {
      EnterBoots(w, e);
    }
  }

  lemma {:induction false} BootsHold(es: seq<Event>)
    ensures Inv(Exec(INIT, es)) && BootInv(Exec(INIT, es))
  {
    Reachable(es);
    if es != [] {
      BootsHold(es[..|es| - 1]);
      StepBoots(Exec(INIT, es[..|es| - 1]), es[|es| - 1]);
    }
  }

  // ---- the history of boots -------------------------------------------------------

  /** Commands were admitted by boot `now`; one that met an answering device
      recorded a boot identity it had read by then, any other is offline control. */
  predicate AdmittedBy(log: seq<Op>, now: nat) {
    forall i :: 0 <= i < |log| && log[i].Admit? ==>
      && log[i].at <= now
      && (log[i].online ==> log[i].request.boot.At? && log[i].request.boot.id <= log[i].at)
      && (!log[i].online ==> AllowsOfflineControl(log[i].request.command.path))
  }

  /** Every recovery recorded a boot reached by `now`, no older than any earlier admission. */
  predicate RecoveredBy(log: seq<Op>, now: nat) {
    forall n :: 0 <= n < |log| && log[n].Recover? ==>
      log[n].boot.At? && log[n].boot.id <= now && AdmittedBy(log[..n], log[n].boot.id)
  }

  /** The boot a recovery has read is no older than the admissions it can see. */
  predicate PhaseDated(ph: Phase, log: seq<Op>) {
    ph.Ready? && ph.cmd.RecoverSession? ==> ph.boot.At? && AdmittedBy(log, ph.boot.id)
  }

  ghost predicate DateInv(w: World) {
    && (forall r: Root :: AdmittedBy(Log(w, r), w.boot) && RecoveredBy(Log(w, r), w.boot))
    && (forall p :: p in w.procs ==> PhaseDated(w.procs[p].phase, Log(w, w.procs[p].root)))
  }

  lemma DatesGrow(log: seq<Op>, now: nat, later: nat)
    requires AdmittedBy(log, now) && RecoveredBy(log, now) && now <= later
    ensures AdmittedBy(log, later) && RecoveredBy(log, later)
  {
  }

  lemma LogDated(w: World, p: Pid, op: Op, log: seq<Op>)
    requires p in w.procs && Attributed(w, p, op) && PhaseBoots(w.procs[p].phase, w.boot)
    requires AdmittedBy(log, w.boot) && RecoveredBy(log, w.boot) && PhaseDated(w.procs[p].phase, log)
    ensures AdmittedBy(log + [op], w.boot) && RecoveredBy(log + [op], w.boot)
  {
    var all := log + [op];
    assert all[..|log|] == log;
    forall n | 0 <= n < |all| && all[n].Recover?
      ensures all[n].boot.At? && all[n].boot.id <= w.boot && AdmittedBy(all[..n], all[n].boot.id)
    {
      assert n < |log| ==> all[..n] == log[..n];
    }
  }

  /** A process that becomes ready to recover has just read the boot identity. */
  lemma ReadyToRecover(w: World, p: Pid, a: Action)
    requires p in w.procs
    ensures p in ActStep(w, p, a).procs
    ensures
      var ph, ph' := w.procs[p].phase, ActStep(w, p, a).procs[p].phase;
      ph'.Ready? && ph'.cmd.RecoverSession? ==>
        ph' == ph || ph'.boot == At(w.boot) || (ph.Probed? && ph.cmd.RecoverSession?)
  {
    hide CommitStep, CompleteStep, PassiveStep, ProbeStep, ClaimStep, HoldsLock;
    match a
    case ProbeBoot(reachable) => ProbeToRecover(w, p, reachable);
    case Claim(d) => ClaimToRecover(w, p, d);
    case Complete(result, stored) => CompletePhases(w, p, result, stored);
    case PassiveWait(stored) => PassivePhases(w, p, stored);
    case _ =>
  }

  lemma ProbeToRecover(w: World, p: Pid, reachable: bool)
    requires p in w.procs
    ensures p in ProbeStep(w, p, reachable).procs
    ensures
      var ph, ph' := w.procs[p].phase, ProbeStep(w, p, reachable).procs[p].phase;
      ph'.Ready? && ph'.cmd.RecoverSession? ==> ph' == ph || ph'.boot == At(w.boot)
  {
    hide HoldsLock, IndexAllows;
    var next := AfterProbe(w, w.procs[p].root, w.procs[p].phase, reachable);
    assert next.Some? ==> ProbeStep(w, p, reachable).procs[p].phase == next.value;
  }

  lemma ClaimToRecover(w: World, p: Pid, d: Delivery)
    requires p in w.procs
    ensures p in ClaimStep(w, p, d).procs
    ensures
      var ph, ph' := w.procs[p].phase, ClaimStep(w, p, d).procs[p].phase;
      ph'.Ready? && ph'.cmd.RecoverSession? ==> ph' == ph || (ph.Probed? && ph.cmd.RecoverSession?)
  {
    hide ClaimScript, ReadAccepts, WantsClaim, HoldsLock;
  }

  lemma OthersDated(w: World, w': World, p: Pid, op: Op, q: Pid)
    requires LockInv(w) && DateInv(w) && (Quiet(w, w', p) || Writes(w, w', p, op)) && q in w'.procs && q != p
    ensures PhaseDated(w'.procs[q].phase, Log(w', w'.procs[q].root))
  {
    assert w'.procs[q] == w.procs[q];
    if Quiet(w, w', p) {
      SameDisk(w, w');
    } else {
      OtherDisk(w, w', p, op);
    }
  }

  lemma ActDates(w: World, p: Pid, a: Action)
    requires Inv(w) && BootInv(w) && DateInv(w) && p in w.procs
    ensures DateInv(ActStep(w, p, a))
  {
    hide ActStep, LegalRun, PhaseBoots, JournalBoots, Legal, Apply, AdmittedBy, RecoveredBy, Attributed;
    var w', r := ActStep(w, p, a), w.procs[p].root;
    assert Known(w, p);
    var op := ActShape(w, p, a);
    ActMarkerBoot(w, p, a);
    ReadyToRecover(w, p, a);
    forall q | q in w'.procs && q != p ensures PhaseDated(w'.procs[q].phase, Log(w', w'.procs[q].root)) {
      OthersDated(w, w', p, op, q);
    }
    if Quiet(w, w', p) {
      SameDisk(w, w');
    } else {
      OtherDisk(w, w', p, op);
      LogDated(w, p, op, Log(w, r));
      WriterDated(w, w', p, op, Log(w, r));
    }
  }

  lemma WriterDated(w: World, w': World, p: Pid, op: Op, log: seq<Op>)
    requires Writes(w, w', p, op) && PhaseDated(w.procs[p].phase, log) && AdmittedBy(log + [op], w.boot)
    requires
      var ph, ph' := w.procs[p].phase, w'.procs[p].phase;
      ph'.Ready? && ph'.cmd.RecoverSession? ==> ph' == ph || ph'.boot == At(w.boot)
    ensures PhaseDated(w'.procs[p].phase, log + [op])
  {
  }

  lemma StepDates(w: World, e: Event)
    requires Inv(w) && BootInv(w) && DateInv(w)
    ensures DateInv(Next(w, e))
  {
    hide ActStep, Inv, BootInv, BeginStep, AdmittedBy, RecoveredBy;
    if e.Act? {
      if e.p in w.procs {
        ActDates(w, e.p, e.action);
      }
    } else {
      hide Next;
      var w' := Next(w, e);
      EnterPhases(w, e);
      SameDisk(w, w');
      forall r: Root ensures AdmittedBy(Log(w', r), w'.boot) && RecoveredBy(Log(w', r), w'.boot) {
        DatesGrow(Log(w, r), w.boot, w'.boot);
      }
    }
  }

  lemma {:induction false} DatesHold(es: seq<Event>)
    ensures DateInv(Exec(INIT, es))
  {
    if es != [] {
      DatesHold(es[..|es| - 1]);
      BootsHold(es[..|es| - 1]);
      StepDates(Exec(INIT, es[..|es| - 1]), es[|es| - 1]);
    }
  }

  /** The recorded boot identity, where there is one, is older than the recovery's. */
  predicate RecordedEarlier(recorded: Boot, recovered: Boot) {
    recorded.At? ==> recovered.At? && recorded.id < recovered.id
  }

  lemma RecoverComesLater(w: World, w': World, p: Pid, op: Op)
    requires Writes(w, w', p, op) && op.Recover? && Known(w, p) && PhaseBoots(w.procs[p].phase, w.boot)
    ensures RecordedEarlier(Disk(w, w.procs[p].root).inFlight.value.boot, op.boot)
  {
  }

  /** Every recovery was made at a later boot than the one recorded with the request. */
  lemma {:induction false} RecoveryIsNewer(es: seq<Event>, r: Root, n: nat)
    requires n < |Log(Exec(INIT, es), r)| && Log(Exec(INIT, es), r)[n].Recover?
    ensures JournalAt(es, r, n).inFlight.Some?
    ensures RecordedEarlier(JournalAt(es, r, n).inFlight.value.boot, Log(Exec(INIT, es), r)[n].boot)
  {
    Reachable(es);
    LogIsLegal(Exec(INIT, es), r);
    var log := Log(Exec(INIT, es), r);
    StepAt(log, n);
    if es != [] {
      var prior, e := es[..|es| - 1], es[|es| - 1];
      var w := Exec(INIT, prior);
      BootsHold(prior);
      StepCommitsOne(w, e, r);
      assert log[..n] == Log(w, r)[..n];
      if n < |Log(w, r)| {
        RecoveryIsNewer(prior, r, n);
      } else {
        assert Log(w, r)[..n] == Log(w, r);
        LastRecoverLater(w, e, r);
      }
    }
  }

  lemma LastRecoverLater(w: World, e: Event, r: Root)
    requires Inv(w) && BootInv(w)
    requires |Log(Next(w, e), r)| == |Log(w, r)| + 1 && Log(Next(w, e), r)[|Log(w, r)|].Recover?
    ensures Disk(w, r).inFlight.Some?
    ensures RecordedEarlier(Disk(w, r).inFlight.value.boot, Log(Next(w, e), r)[|Log(w, r)|].boot)
  {
    if e.Act? && e.p in w.procs {
      assert Known(w, e.p);
      var op := ActShape(w, e.p, e.action);
      if Writes(w, Next(w, e), e.p, op) {
        OtherDisk(w, Next(w, e), e.p, op);
        RecoverComesLater(w, Next(w, e), e.p, op);
      } else {
        SameDisk(w, Next(w, e));
      }
    } else {
      SameDisk(w, Next(w, e));
    }
  }

  /** Admission `m` wrote the request that was recovered by command `n`. */
  ghost predicate Interrupted(es: seq<Event>, r: Root, m: nat, n: nat)
  {
    var log := Log(Exec(INIT, es), r);
    && m < n < |log| && log[m].Admit? && log[n].Recover?
    && JournalAt(es, r, n).inFlight == Some(log[m].request)
  }

  /** No recovery is made at an earlier boot than the interrupted command was
      admitted at, and it is made at a later one if the admission recorded the
      boot it happened at.  Admissions to an answering device record a boot read
      just before, so only a reboot in that gap escapes. */
  lemma RecoveryFollowsReboot(es: seq<Event>, r: Root, n: nat) returns (m: nat)
    requires n < |Log(Exec(INIT, es), r)| && Log(Exec(INIT, es), r)[n].Recover?
    ensures Interrupted(es, r, m, n)
    ensures
      var admitted, recovered := Log(Exec(INIT, es), r)[m], Log(Exec(INIT, es), r)[n];
      && recovered.boot.At? && admitted.at <= recovered.boot.id
      && (admitted.request.boot == At(admitted.at) ==> admitted.at < recovered.boot.id)
      && (admitted.online ==> admitted.request.boot.At? && admitted.request.boot.id <= admitted.at)
  {
    hide Exec;
    Reachable(es);
    LogIsLegal(Exec(INIT, es), r);
    DatesHold(es);
    var log := Log(Exec(INIT, es), r);
    assert AdmittedBy(log, Exec(INIT, es).boot) && RecoveredBy(log, Exec(INIT, es).boot);
    RecoveryIsNewer(es, r, n);
    m := EntryIsLogged(log, n);
    assert log[..n][m] == log[m];
  }

  /** In every run, a command admitted while the device did not answer is offline control. */
  lemma OfflineIsControl(es: seq<Event>, r: Root, n: nat)
    requires n < |Log(Exec(INIT, es), r)| && Log(Exec(INIT, es), r)[n].Admit?
    ensures
      var admitted := Log(Exec(INIT, es), r)[n];
      !admitted.online ==> AllowsOfflineControl(admitted.request.command.path)
  {
    hide Exec;
    DatesHold(es);
    assert AdmittedBy(Log(Exec(INIT, es), r), Exec(INIT, es).boot);
  }
}
