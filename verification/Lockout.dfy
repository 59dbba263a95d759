/**
 What recovery does not cover, and that it covers everything else: a root whose
 lock is free, or whose holder has nothing under way, can get back to a driver by
 steps of its own exactly when it is not `Blocked`.  Each way of being blocked is
 kept by every such step.
 */
module Lockout {
  import opened Basics
  import opened Journal
  import opened Protocol
  import opened Refinement
  import opened Exclusion
  import opened BootOrder
  import opened Guarantees
  import opened Recoverability

  // ---- the marker is another authority's ---------------------------------------------

  /** Phases a command reaches without having found the marker its own or free. */
  predicate ShutOut(ph: Phase) {
    match ph
    case Claimed(_) => false
    case Published(_) => false
    case Ready(cmd, _, _, online) => !cmd.OpenSession? && (cmd.Drive? ==> !online)
    case Active(op) => !op.online
    case _ => true
  }

  ghost predicate MarkedByOther(w: World, r: Root) {
    && w.anchor.Bound? && w.anchor.root != r
    && (forall p :: p in w.procs && w.procs[p].root == r ==> ShutOut(w.procs[p].phase))
  }

  lemma ShutOutByProbe(w: World, p: Pid, reachable: bool)
    requires p in w.procs && ShutOut(w.procs[p].phase)
    ensures p in ProbeStep(w, p, reachable).procs && ShutOut(ProbeStep(w, p, reachable).procs[p].phase)
  {
    hide HoldsLock, IndexAllows;
    var next := AfterProbe(w, w.procs[p].root, w.procs[p].phase, reachable);
    assert next.Some? ==> ProbeStep(w, p, reachable).procs[p].phase == next.value;
  }

  lemma ShutOutByClaim(w: World, p: Pid, d: Delivery)
    requires p in w.procs && ShutOut(w.procs[p].phase) && w.anchor.Bound? && w.anchor.root != w.procs[p].root
    ensures p in ClaimStep(w, p, d).procs && ShutOut(ClaimStep(w, p, d).procs[p].phase)
  {
    hide HoldsLock;
  }

  lemma ShutOutByCommit(w: World, p: Pid, stored: bool)
    requires p in w.procs && ShutOut(w.procs[p].phase)
    ensures ShutOut(CommitStep(w, p, stored).procs[p].phase)
  {
    hide HoldsLock, MayDrive, VerifyOwner;
  }

  lemma ShutOutByEnd(w: World, p: Pid, a: Action)
    requires p in w.procs && ShutOut(w.procs[p].phase) && (a.Complete? || a.PassiveWait?)
    ensures p in ActStep(w, p, a).procs && ShutOut(ActStep(w, p, a).procs[p].phase)
  {
    hide HoldsLock, Uncertain;
  }

  lemma ShutOutStep(w: World, p: Pid, a: Action)
    requires p in w.procs && ShutOut(w.procs[p].phase) && w.anchor.Bound? && w.anchor.root != w.procs[p].root
    ensures p in ActStep(w, p, a).procs && ShutOut(ActStep(w, p, a).procs[p].phase)
  {
    hide ProbeStep, ClaimStep, CommitStep, CompleteStep, PassiveStep, ShutOut, HoldsLock;
    match a
    case ProbeBoot(reachable) => ShutOutByProbe(w, p, reachable);
    case Claim(d) => ShutOutByClaim(w, p, d);
    case Commit(stored) => ShutOutByCommit(w, p, stored);
    case Complete(_, _) => ShutOutByEnd(w, p, a);
    case PassiveWait(_) => ShutOutByEnd(w, p, a);
    case _ => ShutOutOtherwise(w, p, a);
  }

  lemma ShutOutOtherwise(w: World, p: Pid, a: Action)
    requires p in w.procs && ShutOut(w.procs[p].phase)
    requires a.Publish? || a.Mutate? || a.Settle? || a.Unpublish? || a.Release? || a.Crash?
    ensures p in ActStep(w, p, a).procs && ShutOut(ActStep(w, p, a).procs[p].phase)
  {
    hide HoldsLock;
  }

  lemma StaysMarked(w: World, e: Event, r: Root)
    requires Inv(w) && MarkedByOther(w, r) && Own(w, e, r)
    ensures MarkedByOther(Next(w, e), r)
  {
    hide ActStep, ShutOut, Inv;
    if e.Act? && e.p in w.procs {
      OthersStay(w, e.p, e.action);
      MarkerStep(w, e.p, e.action);
      ShutOutStep(w, e.p, e.action);
    } else if !e.Act? {
      hide Next;
      EnterPhases(w, e);
      EnteredIsShutOut(w, e, r);
    }
  }

  lemma EnteredIsShutOut(w: World, e: Event, r: Root)
    requires !e.Act? && MarkedByOther(w, r)
    ensures forall p :: p in Next(w, e).procs && Next(w, e).procs[p].root == r ==> ShutOut(Next(w, e).procs[p].phase)
  {
    hide Next;
    EnterPhases(w, e);
  }

  // ---- a service runs and the index names another authority ----------------------------

  /** Phases a command reaches without asking the index or stopping a service. */
  predicate Waiting(ph: Phase) {
    match ph
    case Exited => true
    case LateReleasing => true
    case Entered(cmd, _) => cmd.Drive? || cmd.ObserveSession? || cmd.RecoverSession?
    case Ready(cmd, _, _, _) => cmd.ObserveSession? || cmd.RecoverSession?
    case Quarantined(_) => true
    case Unsaved(_) => true
    case _ => false
  }

  ghost predicate IndexedByOther(w: World, r: Root) {
    && w.services != {} && !IndexAllows(w, r)
    && (forall p :: p in w.procs && w.procs[p].root == r ==> Waiting(w.procs[p].phase))
  }

  lemma WaitingStep(w: World, p: Pid, a: Action)
    requires p in w.procs && Waiting(w.procs[p].phase) && w.services != {} && !IndexAllows(w, w.procs[p].root)
    ensures p in ActStep(w, p, a).procs && Waiting(ActStep(w, p, a).procs[p].phase)
    ensures ActStep(w, p, a).services == w.services && ActStep(w, p, a).index == w.index
  {
    hide HoldsLock, VerifyOwner, Uncertain, MayDrive, ClaimScript, ReleaseScript;
    match a
    case ProbeBoot(reachable) => WaitingProbe(w, p, reachable);
    case _ =>
  }

  lemma WaitingProbe(w: World, p: Pid, reachable: bool)
    requires p in w.procs && Waiting(w.procs[p].phase) && !IndexAllows(w, w.procs[p].root)
    ensures p in ProbeStep(w, p, reachable).procs && Waiting(ProbeStep(w, p, reachable).procs[p].phase)
    ensures ProbeStep(w, p, reachable).services == w.services && ProbeStep(w, p, reachable).index == w.index
  {
    hide HoldsLock;
    var next := AfterProbe(w, w.procs[p].root, w.procs[p].phase, reachable);
    assert next.Some? ==> ProbeStep(w, p, reachable).procs[p].phase == next.value;
  }

  lemma StaysIndexed(w: World, e: Event, r: Root)
    requires Inv(w) && IndexedByOther(w, r) && Own(w, e, r)
    ensures IndexedByOther(Next(w, e), r)
  {
    hide ActStep, Inv;
    if e.Act? && e.p in w.procs {
      OthersStay(w, e.p, e.action);
      WaitingStep(w, e.p, e.action);
    }
  }

  // ---- reserved, idle and rebooted while a service runs ---------------------------------

  predicate Held(ph: Phase, o: Owner) {
    || ph.Exited? || ph.LateReleasing?
    || (ph.Entered? && (ph.cmd.Drive? || ph.cmd.ObserveSession?))
    || (ph.Probed? && ph.cmd.Drive? && ph.boot != o.boot)
    || (ph.Ready? && (ph.cmd.Drive? || ph.cmd.ObserveSession?)
        && (ph.boot != o.boot || (ph.cmd.Drive? && o.needsObservation)))
  }

  ghost predicate LockedOut(w: World, r: Root, o: Owner) {
    && w.services != {} && Disk(w, r).owner == Some(o) && Disk(w, r).inFlight.None?
    && o.boot.At? && o.boot.id < w.boot
    && (forall p :: p in w.procs && w.procs[p].root == r ==> Held(w.procs[p].phase, o))
  }

  /** The services keep running; an offline probe helps only an owner who has
      observed the device since the session was issued. */
  predicate NoWayOut(e: Event, o: Owner) {
    !e.ServiceStops? && (e.Act? && e.action == ProbeBoot(false) ==> o.needsObservation)
  }

  lemma ProbeHeld(w: World, p: Pid, reachable: bool, r: Root, o: Owner)
    requires Inv(w) && LockedOut(w, r, o) && p in w.procs && w.procs[p].root == r
    requires reachable || o.needsObservation
    ensures Held(ProbeStep(w, p, reachable).procs[p].phase, o)
  {
    assert Known(w, p);
    var next := AfterProbe(w, r, w.procs[p].phase, reachable);
    assert next.Some? ==> ProbeStep(w, p, reachable).procs[p].phase == next.value;
  }

  lemma CommitHeld(w: World, p: Pid, stored: bool, r: Root, o: Owner)
    requires Inv(w) && LockedOut(w, r, o) && p in w.procs && w.procs[p].root == r
    ensures CommitStep(w, p, stored) == w || CommitStep(w, p, stored) == Leave(w, p)
  {
    assert Known(w, p);
  }

  lemma OwnStepHeld(w: World, p: Pid, a: Action, r: Root, o: Owner)
    requires Inv(w) && LockedOut(w, r, o) && p in w.procs && w.procs[p].root == r
    requires NoWayOut(Act(p, a), o)
    ensures Held(ActStep(w, p, a).procs[p].phase, o)
    ensures Disk(ActStep(w, p, a), r) == Disk(w, r)
  {
    assert Held(w.procs[p].phase, o);
    if a.ProbeBoot? {
      ProbeHeld(w, p, a.reachable, r, o);
    } else if a.Commit? {
      CommitHeld(w, p, a.stored, r, o);
    } else {
      OtherStepHeld(w, p, a, o);
    }
  }

  lemma OtherStepHeld(w: World, p: Pid, a: Action, o: Owner)
    requires p in w.procs && Held(w.procs[p].phase, o) && !a.ProbeBoot? && !a.Commit?
    ensures Held(ActStep(w, p, a).procs[p].phase, o) && ActStep(w, p, a).journals == w.journals
  {
  }

  lemma ActLockedOut(w: World, p: Pid, a: Action, r: Root, o: Owner)
    requires Inv(w) && LockedOut(w, r, o) && p in w.procs && NoWayOut(Act(p, a), o)
    ensures LockedOut(ActStep(w, p, a), r, o)
  {
    var w' := ActStep(w, p, a);
    assert Known(w, p);
    var op := ActShape(w, p, a);
    ActMarkerBoot(w, p, a);
    ServicesKept(w, p, a);
    if w.procs[p].root == r {
      OwnStepHeld(w, p, a, r, o);
    } else if Quiet(w, w', p) {
      SameDisk(w, w');
    } else {
      OtherDisk(w, w', p, op);
    }
  }

  lemma ServicesKept(w: World, p: Pid, a: Action)
    requires p in w.procs
    ensures ActStep(w, p, a).services == w.services
  {
  }

  lemma BeginLockedOut(w: World, p: Pid, r': Root, cmd: Command, r: Root, o: Owner)
    requires LockedOut(w, r, o)
    ensures LockedOut(BeginStep(w, p, r', cmd), r, o)
  {
    var w' := BeginStep(w, p, r', cmd);
    SameDisk(w, w');
    if w' != w && r' == r {
      assert Held(w'.procs[p].phase, o);
    }
  }

  lemma StepLockedOut(w: World, e: Event, r: Root, o: Owner)
    requires Inv(w) && LockedOut(w, r, o) && NoWayOut(e, o)
    ensures LockedOut(Next(w, e), r, o)
  {
    if e.Act? {
      if e.p in w.procs {
        ActLockedOut(w, e.p, e.action, r, o);
      }
    } else if e.Begin? {
      BeginLockedOut(w, e.p, e.root, e.cmd, r, o);
    } else {
      SameDisk(w, Next(w, e));
    }
  }

  lemma {:induction false} StaysLockedOut(w: World, es: seq<Event>, r: Root, o: Owner)
    requires Inv(w) && LockedOut(w, r, o)
    requires forall i :: 0 <= i < |es| ==> NoWayOut(es[i], o)
    ensures Inv(Exec(w, es)) && LockedOut(Exec(w, es), r, o)
  {
    if es != [] {
      StaysLockedOut(w, es[..|es| - 1], r, o);
      StepLockedOut(Exec(w, es[..|es| - 1]), es[|es| - 1], r, o);
      StepInv(Exec(w, es[..|es| - 1]), es[|es| - 1]);
    }
  }

  /** The reserved, idle device rebooted, and a service is running. */
  predicate Stranded(w: World, r: Root) {
    && w.services != {} && Disk(w, r).owner.Some? && Disk(w, r).inFlight.None?
    && Disk(w, r).owner.value.boot != At(w.boot)
  }

  /** From a stranded world no run of any authorities' commands, in which the
      services keep running and the device answers, ever admits a command of `r`
      or changes who owns the device. */
  lemma StrandedForGood(es: seq<Event>, more: seq<Event>, r: Root, p: Pid)
    requires r !in Exec(INIT, es).locks && Stranded(Exec(INIT, es), r)
    requires forall i :: 0 <= i < |more| ==> NoWayOut(more[i], Disk(Exec(INIT, es), r).owner.value)
    ensures p in Exec(INIT, es + more).procs && Exec(INIT, es + more).procs[p].root == r ==>
              !Exec(INIT, es + more).procs[p].phase.Active?
    ensures Disk(Exec(INIT, es + more), r).owner == Disk(Exec(INIT, es), r).owner
    ensures Disk(Exec(INIT, es + more), r).inFlight.None?
  {
    var w := Exec(INIT, es);
    BootsHold(es);
    StrandedIsLockedOut(w, r);
    StaysLockedOut(w, more, r, Disk(w, r).owner.value);
    ExecConcat(INIT, es, more);
  }

  lemma StrandedIsLockedOut(w: World, r: Root)
    requires Inv(w) && BootInv(w) && r !in w.locks && Stranded(w, r)
    ensures LockedOut(w, r, Disk(w, r).owner.value)
  {
    assert JournalBoots(Disk(w, r), w.boot);
  }

  // ---- exactly these ------------------------------------------------------------------------

  ghost predicate NeverSeen(w: World, r: Root) {
    && Disk(w, r).owner.Some? && Disk(w, r).owner.value.needsObservation
    && LockedOut(w, r, Disk(w, r).owner.value)
  }

  /** The three ways of being blocked, with what each makes of the root's processes. */
  ghost predicate Stuck(w: World, r: Root) {
    MarkedByOther(w, r) || IndexedByOther(w, r) || NeverSeen(w, r)
  }

  lemma StepStuck(w: World, e: Event, r: Root)
    requires Inv(w) && Stuck(w, r) && Own(w, e, r)
    ensures Stuck(Next(w, e), r)
  {
    hide Inv, Next, MarkedByOther, IndexedByOther;
    if MarkedByOther(w, r) {
      StaysMarked(w, e, r);
    } else if IndexedByOther(w, r) {
      StaysIndexed(w, e, r);
    } else {
      hide Disk;
      StepLockedOut(w, e, r, Disk(w, r).owner.value);
    }
  }

  lemma {:induction false} StaysStuck(w: World, es: seq<Event>, r: Root)
    requires Inv(w) && Stuck(w, r) && AllOwn(w, es, r)
    ensures Inv(Exec(w, es)) && Stuck(Exec(w, es), r)
  {
    hide Inv, Next, Stuck, Own;
    if es != [] {
      StaysStuck(w, es[..|es| - 1], r);
      StepStuck(Exec(w, es[..|es| - 1]), es[|es| - 1], r);
      StepInv(Exec(w, es[..|es| - 1]), es[|es| - 1]);
    }
  }

  lemma StuckDoesNotDrive(w: World, p: Pid, r: Root, name: CommandName)
    requires Stuck(w, r)
    ensures !Drives(w, p, r, name)
  {
  }

  /** The holder of the lock of `r`, if any, has at most read the journal for a
      driver, an observation or a recovery, or is done and keeps the lock because
      its outcome is uncertain or unsaved. */
  predicate NothingUnderWay(w: World, r: Root) {
    r in w.locks && w.locks[r] in w.procs ==>
      match w.procs[w.locks[r]].phase
      case Entered(cmd, _) => cmd.Drive? || cmd.ObserveSession? || cmd.RecoverSession?
      case Quarantined(_) => true
      case Unsaved(_) => true
      case _ => false
  }

  lemma BlockedIsStuck(w: World, r: Root)
    requires Inv(w) && BootInv(w) && NothingUnderWay(w, r) && Blocked(w, r)
    ensures Stuck(w, r)
  {
    hide LogInv, FreshInv, CopyInv;
    if w.anchor.Bound? && w.anchor.root != r {
      assert MarkedByOther(w, r);
    } else if !IndexAllows(w, r) {
      assert IndexedByOther(w, r);
    } else {
      NeverObservedIsNeverSeen(w, r);
    }
  }

  lemma NeverObservedIsNeverSeen(w: World, r: Root)
    requires Inv(w) && BootInv(w) && NothingUnderWay(w, r)
    requires w.services != {} && NeverObserved(w, Disk(w, r))
    ensures NeverSeen(w, r)
  {
    var o := Disk(w, r).owner.value;
    assert JournalBoots(Disk(w, r), w.boot);
    forall p | p in w.procs && w.procs[p].root == r ensures Held(w.procs[p].phase, o) {
      assert Known(w, p);
    }
  }

  /** In every reachable world in which the lock of `r` is free, or its holder has
      nothing under way, steps that `r` can bring about by itself lead to an
      admitted driver exactly when `r` is not blocked. */
  lemma RecoverableIff(es: seq<Event>, r: Root, name: CommandName)
    requires NothingUnderWay(Exec(INIT, es), r)
    ensures Recoverable(Exec(INIT, es), r, name) <==> !Blocked(Exec(INIT, es), r)
  {
    hide Exec, Inv, BootInv, AllOwn, Drives, Blocked, Stuck, NothingUnderWay;
    var w := Exec(INIT, es);
    BootsHold(es);
    if Blocked(w, r) {
      BlockedIsStuck(w, r);
      forall more, p ensures !(AllOwn(w, more, r) && Drives(Exec(w, more), p, r, name)) {
        if AllOwn(w, more, r) {
          StaysStuck(w, more, r);
          StuckDoesNotDrive(Exec(w, more), p, r, name);
        }
      }
    } else {
      var more, p := NoLockout(es, r, name);
      ExecConcat(INIT, es, more);
    }
  }

  /** The same once the holder of the lock has crashed, whatever it was doing. */
  lemma RecoverableAfterCrash(es: seq<Event>, r: Root, name: CommandName)
    requires r in Exec(INIT, es).locks
    ensures Recoverable(Next(Exec(INIT, es), Act(Exec(INIT, es).locks[r], Crash)), r, name)
      <==> !Blocked(Exec(INIT, es), r)
  {
    hide Exec, Inv, Recoverable;
    var w := Exec(INIT, es);
    var crash := Act(w.locks[r], Crash);
    Reachable(es);
    CrashFrees(w, r);
    ExecOne(w, crash);
    ExecConcat(INIT, es, [crash]);
    RecoverableIff(es + [crash], r, name);
    SameDisk(w, Next(w, crash));
  }

  lemma CrashFrees(w: World, r: Root)
    requires Inv(w) && r in w.locks
    ensures
      var w' := Next(w, Act(w.locks[r], Crash));
      && r !in w'.locks && w'.journals == w.journals && w'.logs == w.logs
      && w'.anchor == w.anchor && w'.index == w.index && w'.boot == w.boot && w'.services == w.services
  {
  }

  /** A stranded owner whom neither marker nor index is against gets back exactly
      when it has observed: it disconnects the device and stops the services. */
  lemma StrandedWayOut(es: seq<Event>, r: Root, name: CommandName)
    requires r !in Exec(INIT, es).locks && Stranded(Exec(INIT, es), r) && IndexAllows(Exec(INIT, es), r)
    requires Exec(INIT, es).anchor.Bound? ==> Exec(INIT, es).anchor.root == r
    ensures Recoverable(Exec(INIT, es), r, name) <==> !Disk(Exec(INIT, es), r).owner.value.needsObservation
  {
    hide Recoverable, Exec;
    RecoverableIff(es, r, name);
  }
}
