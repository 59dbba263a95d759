/**
 Several authorities (roots) may share one device: the on-device marker keeps
 them apart.  A root depends on the marker while it has an open session, a
 recorded device-changing command, dead or alive, or a process on its way to one.
 */
module Exclusion {
  import opened Basics
  import opened Journal
  import opened Protocol
  import opened Refinement

  predicate Relies(ph: Phase) {
    match ph
    case Claimed(_) => true
    case Published(_) => true
    case Ready(cmd, s, _, online) =>
      cmd.OpenSession? || (cmd.Drive? && online && (s.owner.Some? || cmd.name.changesDevice))
    case Active(op) => op.releaseAnchor
    case Quarantined(op) => op.releaseAnchor
    case Unsaved(op) => op.releaseAnchor
    case _ => false
  }

  /** A recorded command that was admitted online and may have changed the device. */
  predicate RecordedDrive(j: State) {
    j.inFlight.Some? && j.inFlight.value.command.changesDevice && j.inFlight.value.boot.At?
  }

  predicate HolderSatisfies(w: World, r: Root, f: Phase -> bool) {
    r in w.locks && w.locks[r] in w.procs && f(w.procs[w.locks[r]].phase)
  }

  predicate Depends(w: World, r: Root) {
    Disk(w, r).owner.Some? || RecordedDrive(Disk(w, r)) || HolderSatisfies(w, r, Relies)
  }

  predicate Publishing(ph: Phase) {
    ph.Published? || (ph.Ready? && ph.cmd.OpenSession?)
  }

  predicate NamedInIndex(w: World, r: Root) {
    Disk(w, r).owner.Some? || HolderSatisfies(w, r, Publishing)
  }

  /** An unreserved command's boot identity is known exactly when it is online. */
  predicate Tagged(ph: Phase) {
    && (ph.Probed? ==> ph.boot.At?)
    && (ph.Ready? && ph.cmd.Drive? && ph.state.owner.None? && ph.boot.At? ==> ph.online)
  }

  ghost predicate MarkerInv(w: World) {
    && (forall p :: p in w.procs ==> Tagged(w.procs[p].phase))
    && (forall r: Root :: Depends(w, r) ==> w.anchor == Bound(r))
    && (forall r: Root :: NamedInIndex(w, r) ==> w.index == Some(r))
  }

  /** The late marker removal of an early-released process, at a moment when its
      root has come to depend on the marker again. */
  predicate CutsOff(w: World, e: Event) {
    && e.Act? && e.p in w.procs && w.procs[e.p].phase.LateReleasing?
    && e.action.Release? && !e.action.delivery.Lost?
    && Depends(w, w.procs[e.p].root)
  }

  // ---- one process step -------------------------------------------------------

  /** The marker changes only by a claim of a free one or by its owner's release. */
  lemma MarkerStep(w: World, p: Pid, a: Action)
    requires p in w.procs
    ensures ActStep(w, p, a).anchor == w.anchor || !w.anchor.Bound?
      || (w.anchor == Bound(w.procs[p].root) && a.Release? && !a.delivery.Lost?
          && (w.procs[p].phase.Releasing? || w.procs[p].phase.LateReleasing?))
    ensures ActStep(w, p, a).index == w.index
      || (a.Publish? && w.procs[p].phase.Claimed? && ActStep(w, p, a).index == Some(w.procs[p].root))
      || (a.Unpublish? && w.procs[p].phase.Unpublishing? && IndexAllows(w, w.procs[p].root))
  {
    match a
    case Claim(d) =>
    case ProbeBoot(_) =>
    case _ =>
  }

  /** A process that comes to rely on the marker has just found it its own. */
  lemma RelyStep(w: World, p: Pid, a: Action)
    requires Known(w, p) && Tagged(w.procs[p].phase)
    requires Relies(ActStep(w, p, a).procs[p].phase) && !Relies(w.procs[p].phase)
    ensures a.Claim? && ActStep(w, p, a).anchor == Bound(w.procs[p].root)
  {
    hide ProbeStep, ClaimStep, CommitStep, Relies, Tagged, Faithful;
    match a
    case Claim(d) => RelyByClaim(w, p, d);
    case Commit(stored) => NoRelyByCommit(w, p, stored);
    case ProbeBoot(reachable) => NoRelyByProbe(w, p, reachable);
    case _ => NoRelyOtherwise(w, p, a);
  }

  lemma RelyByClaim(w: World, p: Pid, d: Delivery)
    requires Known(w, p) && Relies(ClaimStep(w, p, d).procs[p].phase) && !Relies(w.procs[p].phase)
    ensures ClaimStep(w, p, d).anchor == Bound(w.procs[p].root)
  {
    hide ClaimScript, HoldsLock;
  }

  lemma NoRelyByCommit(w: World, p: Pid, stored: bool)
    requires Known(w, p) && Tagged(w.procs[p].phase) && Relies(CommitStep(w, p, stored).procs[p].phase)
    ensures Relies(w.procs[p].phase)
  {
    hide HoldsLock, VerifyOwner, MayDrive;
  }

  lemma NoRelyByProbe(w: World, p: Pid, reachable: bool)
    requires Known(w, p) && Relies(ProbeStep(w, p, reachable).procs[p].phase)
    ensures Relies(w.procs[p].phase)
  {
    hide HoldsLock, IndexAllows;
    var next := AfterProbe(w, w.procs[p].root, w.procs[p].phase, reachable);
    assert next.Some? ==> ProbeStep(w, p, reachable).procs[p].phase == next.value;
  }

  lemma NoRelyOtherwise(w: World, p: Pid, a: Action)
    requires Known(w, p) && !a.Claim? && !a.Commit? && !a.ProbeBoot?
    requires Relies(ActStep(w, p, a).procs[p].phase)
    ensures Relies(w.procs[p].phase)
  {
    hide ProbeStep, ClaimStep, CommitStep, CompleteStep, PassiveStep, Faithful, HoldsLock;
    match a
    case Complete(result, stored) => CompletePhases(w, p, result, stored);
    case PassiveWait(stored) => PassivePhases(w, p, stored);
    case _ =>
  }

  lemma ProbeTag(w: World, p: Pid, reachable: bool)
    requires Known(w, p) && Tagged(w.procs[p].phase)
    ensures Tagged(ProbeStep(w, p, reachable).procs[p].phase)
    ensures Publishing(ProbeStep(w, p, reachable).procs[p].phase) ==> Publishing(w.procs[p].phase)
  {
    var next := AfterProbe(w, w.procs[p].root, w.procs[p].phase, reachable);
    assert next.Some? ==> ProbeStep(w, p, reachable).procs[p].phase == next.value;
  }

  lemma ClaimTag(w: World, p: Pid, d: Delivery)
    requires Known(w, p) && Tagged(w.procs[p].phase)
    ensures Tagged(ClaimStep(w, p, d).procs[p].phase)
    ensures Publishing(ClaimStep(w, p, d).procs[p].phase) ==> Publishing(w.procs[p].phase)
  {
    hide ClaimScript, ReadAccepts, WantsClaim, HoldsLock;
  }

  lemma OtherTag(w: World, p: Pid, a: Action)
    requires Known(w, p) && Tagged(w.procs[p].phase) && !a.ProbeBoot? && !a.Claim?
    ensures Tagged(ActStep(w, p, a).procs[p].phase)
    ensures Publishing(ActStep(w, p, a).procs[p].phase) && !Publishing(w.procs[p].phase) ==>
      a.Publish? && ActStep(w, p, a).index == Some(w.procs[p].root)
  {
    hide CommitStep, CompleteStep, PassiveStep, ReleaseScript, Faithful, HoldsLock, ProbeStep, ClaimStep;
    match a
    case Complete(result, stored) => CompletePhases(w, p, result, stored);
    case PassiveWait(stored) => PassivePhases(w, p, stored);
    case _ =>
  }

  lemma TagStep(w: World, p: Pid, a: Action)
    requires Known(w, p) && Tagged(w.procs[p].phase)
    ensures Tagged(ActStep(w, p, a).procs[p].phase)
    ensures Publishing(ActStep(w, p, a).procs[p].phase) && !Publishing(w.procs[p].phase) ==>
      a.Publish? && ActStep(w, p, a).index == Some(w.procs[p].root)
  {
    hide ProbeStep, ClaimStep, CommitStep, Tagged, Publishing, Faithful;
    if a.ProbeBoot? {
      ProbeTag(w, p, a.reachable);
    } else if a.Claim? {
      ClaimTag(w, p, a.delivery);
    } else {
      OtherTag(w, p, a);
    }
  }

  lemma DependsStep(w: World, w': World, p: Pid, op: Op, r: Root)
    requires LockInv(w) && Known(w, p) && Tagged(w.procs[p].phase)
    requires Quiet(w, w', p) || Writes(w, w', p, op)
    requires Relies(w'.procs[p].phase) && !Relies(w.procs[p].phase) ==> w'.anchor == Bound(w.procs[p].root)
    requires Depends(w', r)
    ensures Depends(w, r) || (r == w.procs[p].root && w'.anchor == Bound(r))
  {
    if Quiet(w, w', p) {
      SameDisk(w, w');
    } else {
      OtherDisk(w, w', p, op);
      if r == w.procs[p].root && (Disk(w', r).owner.Some? || RecordedDrive(Disk(w', r))) {
        WriteDepends(w, w', p, op);
      }
    }
  }

  /** A write that makes the journal depend on the marker comes from a process
      that already did. */
  lemma WriteDepends(w: World, w': World, p: Pid, op: Op)
    requires LockInv(w) && Known(w, p) && Tagged(w.procs[p].phase) && Writes(w, w', p, op)
    requires Disk(w', w.procs[p].root).owner.Some? || RecordedDrive(Disk(w', w.procs[p].root))
    ensures Depends(w, w.procs[p].root)
  {
    OtherDisk(w, w', p, op);
    assert w.locks[w.procs[p].root] == p;
  }

  lemma NamedStep(w: World, w': World, p: Pid, op: Op, r: Root)
    requires LockInv(w) && Known(w, p)
    requires Quiet(w, w', p) || Writes(w, w', p, op)
    requires Publishing(w'.procs[p].phase) && !Publishing(w.procs[p].phase) ==> w'.index == Some(w.procs[p].root)
    requires NamedInIndex(w', r)
    ensures NamedInIndex(w, r) || (r == w.procs[p].root && w'.index == Some(r))
  {
    if Quiet(w, w', p) {
      SameDisk(w, w');
    } else {
      OtherDisk(w, w', p, op);
    }
  }

  /** What is left of the marker after its own root removed it in good order. */
  lemma ReleasedInOrder(w: World, p: Pid, a: Action)
    requires Inv(w) && p in w.procs && w.procs[p].phase.Releasing? && a.Release?
    ensures !Depends(ActStep(w, p, a), w.procs[p].root)
  {
    assert Known(w, p);
    SameDisk(w, ActStep(w, p, a));
  }

  lemma ActMarker(w: World, p: Pid, a: Action)
    requires Inv(w) && MarkerInv(w) && p in w.procs && !CutsOff(w, Act(p, a))
    ensures MarkerInv(ActStep(w, p, a))
  {
    var w', r0 := ActStep(w, p, a), w.procs[p].root;
    assert Known(w, p);
    var op := ActShape(w, p, a);
    MarkerStep(w, p, a);
    TagStep(w, p, a);
    if Relies(w'.procs[p].phase) && !Relies(w.procs[p].phase) {
      RelyStep(w, p, a);
    }
    forall r: Root | Depends(w', r) ensures w'.anchor == Bound(r) {
      DependsStep(w, w', p, op, r);
      if w.procs[p].phase.Releasing? && a.Release? {
        ReleasedInOrder(w, p, a);
      }
    }
    forall r: Root | NamedInIndex(w', r) ensures w'.index == Some(r) {
      NamedStep(w, w', p, op, r);
      NamedKept(w, w', p, a, op, r);
    }
  }

  lemma NamedKept(w: World, w': World, p: Pid, a: Action, op: Op, r: Root)
    requires Inv(w) && MarkerInv(w) && p in w.procs
    requires NamedInIndex(w', r) && (NamedInIndex(w, r) || w'.index == Some(r))
    requires w'.index == w.index
      || (a.Publish? && w.procs[p].phase.Claimed? && w'.index == Some(w.procs[p].root))
      || (a.Unpublish? && w.procs[p].phase.Unpublishing? && IndexAllows(w, w.procs[p].root))
    ensures w'.index == Some(r)
  {
    hide LogInv, FreshInv, RecordedDrive;
    assert Known(w, p);
    assert w.procs[p].phase.Claimed? ==> Depends(w, w.procs[p].root);
    assert NamedInIndex(w, r) ==> Depends(w, r);
  }

  lemma StepMarker(w: World, e: Event)
    requires Inv(w) && MarkerInv(w) && !CutsOff(w, e)
    ensures MarkerInv(Next(w, e))
  {
    hide ActStep, BeginStep, MarkerInv, CutsOff, LockInv, CopyInv, LogInv, FreshInv;
    if e.Act? {
      if e.p in w.procs {
        ActMarker(w, e.p, e.action);
      }
    } else {
      EnterMarker(w, e);
    }
  }

  /** A process that has only just read the journal relies on nothing. */
  lemma EnterMarker(w: World, e: Event)
    requires LockInv(w) && MarkerInv(w) && !e.Act?
    ensures MarkerInv(Next(w, e))
  {
    hide LockInv, Next, RecordedDrive, HolderSatisfies, Disk;
    var w' := Next(w, e);
    EnterPhases(w, e);
    forall r: Root ensures Depends(w', r) ==> Depends(w, r) {
      EnterDepends(w, e, r);
    }
    forall r: Root ensures NamedInIndex(w', r) ==> NamedInIndex(w, r) {
      EnterDepends(w, e, r);
    }
  }

  lemma EnterDepends(w: World, e: Event, r: Root)
    requires LockInv(w) && !e.Act?
    ensures Depends(Next(w, e), r) ==> Depends(w, r)
    ensures NamedInIndex(Next(w, e), r) ==> NamedInIndex(w, r)
  {
    hide LockInv, RecordedDrive, HolderSatisfies;
    SameDisk(w, Next(w, e));
    EnterHolder(w, e, r, Relies);
    EnterHolder(w, e, r, Publishing);
  }

  lemma EnterHolder(w: World, e: Event, r: Root, f: Phase -> bool)
    requires LockInv(w) && !e.Act? && (forall ph: Phase :: ph.Entered? || ph.Exited? ==> !f(ph))
    ensures HolderSatisfies(Next(w, e), r, f) ==> HolderSatisfies(w, r, f)
  {
  }

  /** A claim that reaches the device binds the marker to its root exactly when it
      was that root's, absent, or left by a claim interrupted before this boot;
      a reader accepts exactly the same markers, and leaves them alone. */
  lemma MarkerIsTakenIff(a: Anchor, r: Root, boot: nat)
    ensures
      var free := match a
        case Absent => true
        case Ownerless(madeAt) => madeAt < boot
        case Bound(root) => root == r;
      && (ClaimScript(a, r, boot, Delivered) == Bound(r) <==> free)
      && (!free ==> ClaimScript(a, r, boot, Delivered) == a)
      && (ReadAccepts(a, r, boot) <==> free)
  {
  }

  /** A removal that reaches the device takes the marker away exactly from its own root. */
  lemma MarkerIsRemovedIff(a: Anchor, r: Root, boot: nat)
    ensures ReleaseScript(a, r, boot, Delivered) == if a == Bound(r) then Absent else a
  {
  }

  /** A script that is lost does nothing, one whose reply is lost does all, and one
      cut short leaves a marker without an owner where it would have changed it. */
  lemma ScriptsMayFail(a: Anchor, r: Root, boot: nat)
    ensures ClaimScript(a, r, boot, Lost) == a && ReleaseScript(a, r, boot, Lost) == a
    ensures ClaimScript(a, r, boot, ReplyLost) == ClaimScript(a, r, boot, Delivered)
    ensures ReleaseScript(a, r, boot, ReplyLost) == ReleaseScript(a, r, boot, Delivered)
    ensures ClaimScript(a, r, boot, CutShort)
      == if ClaimScript(a, r, boot, Delivered) == a then a else Ownerless(boot)
    ensures ReleaseScript(a, r, boot, CutShort)
      == if ReleaseScript(a, r, boot, Delivered) == a then a else Ownerless(boot)
  {
  }

  // ---- whole runs ---------------------------------------------------------------

  /** No early-released process removes the marker its root needs again. */
  predicate NeverCutsOff(es: seq<Event>) {
    es != [] ==> NeverCutsOff(es[..|es| - 1]) && !CutsOff(Exec(INIT, es[..|es| - 1]), es[|es| - 1])
  }

  lemma {:induction false} MarkerHolds(es: seq<Event>)
    requires NeverCutsOff(es)
    ensures Inv(Exec(INIT, es)) && MarkerInv(Exec(INIT, es))
  {
    Reachable(es);
    if es != [] {
      var before := es[..|es| - 1];
      MarkerHolds(before);
      StepMarker(Exec(INIT, before), es[|es| - 1]);
    }
  }

  /** At most one authority at a time has an open session or an online
      device-changing command, running or interrupted. */
  lemma AuthoritiesExclude(es: seq<Event>, r1: Root, r2: Root)
    requires NeverCutsOff(es)
    requires Depends(Exec(INIT, es), r1) && Depends(Exec(INIT, es), r2)
    ensures r1 == r2
  {
    MarkerHolds(es);
  }

  lemma {:induction false} NoLateReleasers(es: seq<Event>, p: Pid)
    requires forall i :: 0 <= i < |es| ==> !(es[i].Act? && es[i].action.PassiveWait?)
    ensures p in Exec(INIT, es).procs ==> !Exec(INIT, es).procs[p].phase.LateReleasing?
  {
    if es != [] {
      var before := es[..|es| - 1];
      NoLateReleasers(before, p);
      Reachable(before);
      OnlyPassiveReleasesLate(Exec(INIT, before), es[|es| - 1], p);
    }
  }

  lemma OnlyPassiveReleasesLate(w: World, e: Event, p: Pid)
    requires Inv(w) && (p in w.procs ==> !w.procs[p].phase.LateReleasing?)
    requires !(e.Act? && e.action.PassiveWait?)
    ensures p in Next(w, e).procs ==> !Next(w, e).procs[p].phase.LateReleasing?
  {
    if e.Act? && e.p in w.procs {
      assert Known(w, e.p);
      var op := ActShape(w, e.p, e.action);
      ActNotLate(w, e.p, e.action);
    }
  }

  lemma ActNotLate(w: World, p: Pid, a: Action)
    requires p in w.procs && !a.PassiveWait?
    ensures p in ActStep(w, p, a).procs
    ensures ActStep(w, p, a).procs[p].phase.LateReleasing? ==> w.procs[p].phase.LateReleasing?
  {
    hide CommitStep, CompleteStep, ClaimStep, ProbeStep, HoldsLock;
    match a
    case Complete(result, stored) => CompletePhases(w, p, result, stored);
    case ProbeBoot(reachable) => ProbeNotLate(w, p, reachable);
    case Claim(d) => ClaimNotLate(w, p, d);
    case _ =>
  }

  lemma ProbeNotLate(w: World, p: Pid, reachable: bool)
    requires p in w.procs
    ensures p in ProbeStep(w, p, reachable).procs
    ensures ProbeStep(w, p, reachable).procs[p].phase.LateReleasing? ==> w.procs[p].phase.LateReleasing?
  {
    var next := AfterProbe(w, w.procs[p].root, w.procs[p].phase, reachable);
    assert next.Some? ==> ProbeStep(w, p, reachable).procs[p].phase == next.value;
  }

  lemma ClaimNotLate(w: World, p: Pid, d: Delivery)
    requires p in w.procs
    ensures p in ClaimStep(w, p, d).procs
    ensures ClaimStep(w, p, d).procs[p].phase.LateReleasing? ==> w.procs[p].phase.LateReleasing?
  {
    hide ClaimScript, WantsClaim, ReadAccepts, HoldsLock;
  }

  /** Runs in which no command releases the device early never cut off. */
  lemma {:induction false} WithoutPassiveRelease(es: seq<Event>)
    requires forall i :: 0 <= i < |es| ==> !(es[i].Act? && es[i].action.PassiveWait?)
    ensures NeverCutsOff(es)
  {
    if es != [] {
      WithoutPassiveRelease(es[..|es| - 1]);
      if es[|es| - 1].Act? {
        NoLateReleasers(es[..|es| - 1], es[|es| - 1].p);
      }
    }
  }

  /** A late removal that reaches the device keeps the marker in order exactly
      when the root no longer depends on it. */
  lemma LateReleaseIsSafeIff(w: World, p: Pid, d: Delivery)
    requires Inv(w) && MarkerInv(w) && p in w.procs && w.procs[p].phase.LateReleasing? && !d.Lost?
    ensures MarkerInv(ReleaseStep(w, p, d)) <==> !Depends(w, w.procs[p].root)
  {
    hide LockInv, CopyInv, LogInv, FreshInv;
    var w', r := ReleaseStep(w, p, d), w.procs[p].root;
    SameDisk(w, w');
    if Depends(w, r) {
      assert Depends(w', r) && w'.anchor != Bound(r);
    } else {
      StepMarker(w, Act(p, Release(d)));
    }
  }
}
