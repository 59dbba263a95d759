/** What a command that releases the device early, before it waits passively, may
    cost: its request may go unnamed, and its late marker removal may hit others. */
module EarlyRelease {
  import opened Basics
  import opened Journal
  import opened Protocol
  import opened Refinement
  import opened Exclusion
  import opened Recoverability
  import opened Guarantees

  const TAP := CommandName(Other, true)

  // ---- every request is accounted for, but for one family of runs --------------------

  /** An early release by `p` would take the request out of its memory now. */
  predicate TakesRequest(w: World, p: Pid) {
    && p in w.procs && w.procs[p].phase.Active?
    && w.procs[p].unsettled == 0 && !w.procs[p].phase.op.recoveryCleanup
  }

  /** Process `p` tried to release the device early, and the write failed. */
  ghost predicate FailedEarlyRelease(es: seq<Event>, p: Pid) {
    exists i :: 0 <= i < |es| && es[i] == Act(p, PassiveWait(false)) && TakesRequest(Exec(INIT, es[..i]), p)
  }

  lemma FailedNowOrBefore(es: seq<Event>, p: Pid)
    requires es != []
    ensures
      var prior, e := es[..|es| - 1], es[|es| - 1];
      FailedEarlyRelease(es, p)
      <==> FailedEarlyRelease(prior, p) || (e == Act(p, PassiveWait(false)) && TakesRequest(Exec(INIT, prior), p))
  {
    hide TakesRequest, Exec;
    var prior, e := es[..|es| - 1], es[|es| - 1];
    if FailedEarlyRelease(es, p) {
      var i :| 0 <= i < |es| && es[i] == Act(p, PassiveWait(false)) && TakesRequest(Exec(INIT, es[..i]), p);
      assert i < |prior| ==> prior[..i] == es[..i] && prior[i] == es[i];
    }
    if FailedEarlyRelease(prior, p) {
      var i :| 0 <= i < |prior| && prior[i] == Act(p, PassiveWait(false)) && TakesRequest(Exec(INIT, prior[..i]), p);
      assert prior[..i] == es[..i] && prior[i] == es[i];
    }
    assert e == Act(p, PassiveWait(false)) && TakesRequest(Exec(INIT, prior), p) ==> es[..|es| - 1] == prior;
  }

  /** Not admitted yet. */
  predicate Early(ph: Phase) {
    ph.Entered? || ph.Probed? || ph.Claimed? || ph.Published? || ph.Ready?
  }

  predicate Remembers(ph: Phase, failed: bool) {
    && (Early(ph) ==> !failed)
    && (ph.Active? && !ph.op.recoveryCleanup ==> (ph.op.state.inFlight.None? <==> failed))
  }

  ghost predicate MemoryInv(es: seq<Event>) {
    forall p ::
      var w := Exec(INIT, es);
      if p in w.procs then Remembers(w.procs[p].phase, FailedEarlyRelease(es, p)) else !FailedEarlyRelease(es, p)
  }

  /** One step of a process keeps the link between its memory and its failed release. */
  predicate KeepsMemory(w: World, p: Pid, a: Action, ph: Phase)
    requires p in w.procs
  {
    forall failed: bool :: Remembers(w.procs[p].phase, failed) ==>
      Remembers(ph, failed || (a == PassiveWait(false) && TakesRequest(w, p)))
  }

  lemma CommitKeepsMemory(w: World, p: Pid, stored: bool)
    requires Known(w, p)
    ensures KeepsMemory(w, p, Commit(stored), CommitStep(w, p, stored).procs[p].phase)
  {
    hide HoldsLock, MayDrive, VerifyOwner;
  }

  lemma CompleteKeepsMemory(w: World, p: Pid, result: Option<Failure>, stored: bool)
    requires Known(w, p)
    ensures p in CompleteStep(w, p, result, stored).procs
    ensures KeepsMemory(w, p, Complete(result, stored), CompleteStep(w, p, result, stored).procs[p].phase)
  {
    hide HoldsLock, Uncertain;
  }

  lemma PassiveKeepsMemory(w: World, p: Pid, stored: bool)
    requires Known(w, p)
    ensures p in PassiveStep(w, p, stored).procs
    ensures KeepsMemory(w, p, PassiveWait(stored), PassiveStep(w, p, stored).procs[p].phase)
  {
    hide HoldsLock;
  }

  lemma ProbeKeepsMemory(w: World, p: Pid, reachable: bool)
    requires Known(w, p)
    ensures p in ProbeStep(w, p, reachable).procs
    ensures KeepsMemory(w, p, ProbeBoot(reachable), ProbeStep(w, p, reachable).procs[p].phase)
  {
    hide HoldsLock, IndexAllows;
    var next := AfterProbe(w, w.procs[p].root, w.procs[p].phase, reachable);
    assert next.Some? ==> ProbeStep(w, p, reachable).procs[p].phase == next.value;
  }

  lemma ClaimKeepsMemory(w: World, p: Pid, d: Delivery)
    requires Known(w, p)
    ensures p in ClaimStep(w, p, d).procs
    ensures KeepsMemory(w, p, Claim(d), ClaimStep(w, p, d).procs[p].phase)
  {
    hide HoldsLock, ClaimScript, ReadAccepts, WantsClaim;
  }

  lemma OtherKeepsMemory(w: World, p: Pid, a: Action)
    requires Known(w, p)
    requires a.Publish? || a.Mutate? || a.Settle? || a.Unpublish? || a.Release? || a.Crash?
    ensures p in ActStep(w, p, a).procs && KeepsMemory(w, p, a, ActStep(w, p, a).procs[p].phase)
  {
    hide HoldsLock;
  }

  lemma ActKeepsMemory(w: World, p: Pid, a: Action)
    requires Known(w, p)
    ensures p in ActStep(w, p, a).procs && KeepsMemory(w, p, a, ActStep(w, p, a).procs[p].phase)
  {
    hide ProbeStep, ClaimStep, CommitStep, CompleteStep, PassiveStep, KeepsMemory, Faithful, HoldsLock;
    match a
    case ProbeBoot(reachable) => ProbeKeepsMemory(w, p, reachable);
    case Claim(d) => ClaimKeepsMemory(w, p, d);
    case Commit(stored) => CommitKeepsMemory(w, p, stored);
    case Complete(result, stored) => CompleteKeepsMemory(w, p, result, stored);
    case PassiveWait(stored) => PassiveKeepsMemory(w, p, stored);
    case _ => OtherKeepsMemory(w, p, a);
  }

  lemma {:induction false} MemoryHolds(es: seq<Event>)
    ensures MemoryInv(es)
  {
    if es != [] {
      MemoryHolds(es[..|es| - 1]);
      Reachable(es[..|es| - 1]);
      forall p
        ensures
          var w := Exec(INIT, es);
          if p in w.procs then Remembers(w.procs[p].phase, FailedEarlyRelease(es, p)) else !FailedEarlyRelease(es, p)
      {
        MemoryStep(es, p);
      }
    }
  }

  lemma MemoryStep(es: seq<Event>, p: Pid)
    requires es != [] && MemoryInv(es[..|es| - 1]) && Inv(Exec(INIT, es[..|es| - 1]))
    ensures
      var w := Exec(INIT, es);
      if p in w.procs then Remembers(w.procs[p].phase, FailedEarlyRelease(es, p)) else !FailedEarlyRelease(es, p)
  {
    hide ActStep, BeginStep, Inv, FailedEarlyRelease, Remembers;
    var prior, e := es[..|es| - 1], es[|es| - 1];
    var w := Exec(INIT, prior);
    FailedNowOrBefore(es, p);
    if e.Act? {
      if e.p in w.procs {
        assert Known(w, e.p) by { assert CopyInv(w) by { InvHasCopies(w); } }
        OthersStay(w, e.p, e.action);
        ActKeepsMemory(w, e.p, e.action);
      }
    } else {
      BegunRemembers(w, e, p, FailedEarlyRelease(prior, p));
    }
  }

  lemma InvHasCopies(w: World)
    requires Inv(w)
    ensures CopyInv(w)
  {
  }

  lemma BegunRemembers(w: World, e: Event, p: Pid, failed: bool)
    requires !e.Act?
    requires if p in w.procs then Remembers(w.procs[p].phase, failed) else !failed
    ensures if p in Next(w, e).procs then Remembers(Next(w, e).procs[p].phase, failed) else !failed
  {
    hide JournalAllows, InMemory;
  }

  /** What the step that takes a request out of the journal leaves behind. */
  lemma Removal(w: World, p: Pid, a: Action, r: Root)
    requires Known(w, p) && w.procs[p].root == r && Disk(w, r).inFlight.Some?
    requires Disk(ActStep(w, p, a), r).inFlight != Disk(w, r).inFlight
    ensures Disk(ActStep(w, p, a), r).lastCompletion.Some?
    ensures
      var ph, request := w.procs[p].phase, Disk(ActStep(w, p, a), r).lastCompletion.value.request;
      (Early(ph) && request == Disk(w, r).inFlight) || FromMemory(ph, request)
  {
    hide ActStep, Legal, Apply, Attributed, Faithful;
    var w' := ActStep(w, p, a);
    var op := ActShape(w, p, a);
    if Quiet(w, w', p) {
      SameDisk(w, w');
    } else {
      OtherDisk(w, w', p, op);
      RemovalBy(w, p, op);
    }
  }

  lemma RemovalBy(w: World, p: Pid, op: Op)
    requires Known(w, p) && Attributed(w, p, op) && Legal(Disk(w, w.procs[p].root), op)
    requires Disk(w, w.procs[p].root).inFlight.Some?
    requires Apply(Disk(w, w.procs[p].root), op).inFlight != Disk(w, w.procs[p].root).inFlight
    ensures Apply(Disk(w, w.procs[p].root), op).lastCompletion.Some?
    ensures
      var j, ph := Disk(w, w.procs[p].root), w.procs[p].phase;
      var request := Apply(j, op).lastCompletion.value.request;
      (Early(ph) && request == j.inFlight) || FromMemory(ph, request)
  {
    hide Uncertain, MayDrive, Faithful;
  }

  /** A request that leaves the journal in any step of any run is named by the
      completion recorded in its place, except exactly when the process that took
      it out had failed to write an early release before. */
  lemma RequestIsAccountedFor(es: seq<Event>, e: Event, r: Root)
    requires Disk(Exec(INIT, es), r).inFlight.Some?
    requires Disk(Exec(INIT, es + [e]), r).inFlight != Disk(Exec(INIT, es), r).inFlight
    ensures e.Act? && Disk(Exec(INIT, es + [e]), r).lastCompletion.Some?
    ensures
      Disk(Exec(INIT, es + [e]), r).lastCompletion.value.request == Disk(Exec(INIT, es), r).inFlight
      <==> !FailedEarlyRelease(es, e.p)
  {
    hide Exec, Next, FailedEarlyRelease, Inv, MemoryInv;
    var w := Exec(INIT, es);
    ExecOne(w, e);
    ExecConcat(INIT, es, [e]);
    Reachable(es);
    RemovedByOwnProcess(w, e, r);
    Removal(w, e.p, e.action, r);
    MemoryIs(es, e.p);
  }

  lemma MemoryIs(es: seq<Event>, p: Pid)
    requires p in Exec(INIT, es).procs
    ensures Remembers(Exec(INIT, es).procs[p].phase, FailedEarlyRelease(es, p))
    ensures Known(Exec(INIT, es), p)
    ensures
      var ph := Exec(INIT, es).procs[p].phase;
      ph.Active? && !ph.op.recoveryCleanup && ph.op.state.inFlight.Some?
      ==> ph.op.state.inFlight == Disk(Exec(INIT, es), Exec(INIT, es).procs[p].root).inFlight
  {
    hide Exec, FailedEarlyRelease, Remembers;
    MemoryHolds(es);
    Reachable(es);
    assert CopyInv(Exec(INIT, es));
  }

  lemma RemovedByOwnProcess(w: World, e: Event, r: Root)
    requires Inv(w) && Disk(Next(w, e), r).inFlight != Disk(w, r).inFlight
    ensures e.Act? && e.p in w.procs && w.procs[e.p].root == r && Next(w, e) == ActStep(w, e.p, e.action) && Known(w, e.p)
  {
    hide ActStep, BeginStep;
    if e.Act? && e.p in w.procs {
      assert Known(w, e.p);
      var op := ActShape(w, e.p, e.action);
      if w.procs[e.p].root != r {
        ElsewhereSame(w, e.p, e.action, op, r);
      }
    } else {
      BegunKeepsJournals(w, e);
      SameDisk(w, Next(w, e));
    }
  }

  lemma BegunKeepsJournals(w: World, e: Event)
    requires !(e.Act? && e.p in w.procs)
    ensures Next(w, e).journals == w.journals && Next(w, e).logs == w.logs
  {
    hide JournalAllows, InMemory;
  }

  lemma ElsewhereSame(w: World, p: Pid, a: Action, op: Op, r: Root)
    requires p in w.procs && w.procs[p].root != r
    requires Quiet(w, ActStep(w, p, a), p) || Writes(w, ActStep(w, p, a), p, op)
    ensures Disk(ActStep(w, p, a), r) == Disk(w, r)
  {
    hide ActStep;
    if Quiet(w, ActStep(w, p, a), p) {
      SameDisk(w, ActStep(w, p, a));
    } else {
      OtherDisk(w, ActStep(w, p, a), p, op);
    }
  }

  /** Such a run: the request is taken out of memory before the write that fails. */
  lemma CompletionLosesRequest() returns (es: seq<Event>)
    ensures Disk(Exec(INIT, es), 0).lastCompletion == Some(Finished(None, true))
  {
    var w1 := DriverRuns(INIT, 0, 0, None, TAP);
    var wait, done := Act(0, PassiveWait(false)), Act(0, Complete(None, true));
    ExecConcat(INIT, DriverEvents(0, 0, None, TAP), [wait]);
    ExecOne(w1, wait);
    var w2 := Next(w1, wait);
    ExecConcat(INIT, DriverEvents(0, 0, None, TAP) + [wait], [done]);
    ExecOne(w2, done);
    es := DriverEvents(0, 0, None, TAP) + [wait] + [done];
  }

  // ---- late marker removals ---------------------------------------------------------------

  /** Root 0 has an admitted command, and an earlier one whose lock is gone but
      whose marker removal is still to come. */
  predicate Exposed(w: World) {
    && Drives(w, 1, 0, TAP) && w.procs.Keys == {0, 1}
    && w.procs[0].root == 0 && w.procs[0].phase.LateReleasing?
    && RecordedDrive(Disk(w, 0)) && w.anchor == Bound(0)
    && w.locks == map[0 := 1] && w.index.None? && w.boot == 0 && Disk(w, 1) == EMPTY
  }

  lemma FirstLeavesMarker() returns (es: seq<Event>, w: World)
    ensures w == Exec(INIT, es)
    ensures w.procs.Keys == {0} && w.procs[0].root == 0 && w.procs[0].phase.LateReleasing?
    ensures w.anchor == Bound(0) && w.locks == map[] && w.index.None? && w.boot == 0 && w.services == {}
    ensures Disk(w, 0).owner.None? && Disk(w, 0).inFlight.None? && Disk(w, 1) == EMPTY
  {
    var wait := Act(0, PassiveWait(true));
    var w1 := DriverRuns(INIT, 0, 0, None, TAP);
    w := Next(w1, wait);
    es := DriverEvents(0, 0, None, TAP) + [wait];
    ExecConcat(INIT, DriverEvents(0, 0, None, TAP), [wait]);
    ExecOne(w1, wait);
    assert Disk(w1, 1) == EMPTY;
    assert w.locks == map[];
  }

  lemma SecondIsExposed() returns (es: seq<Event>, w: World)
    ensures w == Exec(INIT, es) && Exposed(w)
  {
    var first, w1 := FirstLeavesMarker();
    w := DriverRuns(w1, 1, 0, None, TAP);
    es := first + DriverEvents(1, 0, None, TAP);
    ExecConcat(INIT, first, DriverEvents(1, 0, None, TAP));
  }

  /** The lock goes before the marker: a second command of root 0 is admitted in
      between, loses its marker, and root 1 is admitted beside it. */
  lemma TwoAuthoritiesAtOnce() returns (es: seq<Event>)
    ensures Drives(Exec(INIT, es), 1, 0, TAP) && Drives(Exec(INIT, es), 2, 1, TAP)
    ensures Depends(Exec(INIT, es), 0) && Depends(Exec(INIT, es), 1)
  {
    var prior, w := SecondIsExposed();
    var remove := Act(0, Release(Delivered));
    var w1 := Next(w, remove);
    assert w1.anchor.Absent? && w1.locks == w.locks && w1.journals == w.journals && Drives(w1, 1, 0, TAP);
    var w2 := DriverRuns(w1, 2, 1, None, TAP);
    ExecConcat(INIT, prior, [remove]);
    ExecOne(w, remove);
    ExecConcat(INIT, prior + [remove], DriverEvents(2, 1, None, TAP));
    es := prior + [remove] + DriverEvents(2, 1, None, TAP);
  }

  /** Both roots have an open session; marker and index name root 1. */
  predicate BothOpen(w: World) {
    && Disk(w, 0).owner.Some? && Disk(w, 0).inFlight.None? && Disk(w, 1).owner.Some?
    && w.anchor == Bound(1) && w.index == Some(1) && w.services == {} && w.locks == map[] && w.procs.Keys == {0, 1, 2}
  }

  lemma LateRemovalOnly(w: World, p: Pid)
    requires p in w.procs && w.procs[p].phase.LateReleasing? && w.anchor == Bound(w.procs[p].root)
    ensures Next(w, Act(p, Release(Delivered)))
      == w.(anchor := Absent, procs := w.procs[p := w.procs[p].(phase := Exited)])
  {
  }

  /** A session is opened before the late removal of its marker, and root 1 opens
      its own after it. */
  lemma TwoSessionsAtOnce() returns (es: seq<Event>, w: World)
    ensures w == Exec(INIT, es) && BothOpen(w)
  {
    hide Exec, Next;
    var first, w1 := FirstLeavesMarker();
    var w2 := OpenRuns(w1, 1, 0);
    var remove := Act(0, Release(Delivered));
    LateRemovalOnly(w2, 0);
    var w3 := Next(w2, remove);
    assert Disk(w3, 1) == EMPTY && Disk(w3, 0) == Disk(w2, 0);
    w := OpenRuns(w3, 2, 1);
    ExecConcat(INIT, first, OpenEvents(1, 0));
    ExecOne(w2, remove);
    ExecConcat(INIT, first + OpenEvents(1, 0), [remove]);
    ExecConcat(INIT, first + OpenEvents(1, 0) + [remove], OpenEvents(2, 1));
    es := first + OpenEvents(1, 0) + [remove] + OpenEvents(2, 1);
  }

  /** Root 0 closes its session: the journal says so, but the host index names
      root 1, so the command ends without having removed entry or marker. */
  lemma CloseMeetsAnotherEntry() returns (es: seq<Event>, p: Pid)
    ensures
      var w, w' := Exec(INIT, es), Exec(INIT, es + [Act(p, Unpublish)]);
      && p in w.procs && w.procs[p] == Process(0, Unpublishing, 0) && Disk(w, 0).owner.None?
      && p in w'.procs && w'.procs[p].phase.Exited? && Disk(w', 0).owner.None? && Disk(w', 1).owner.Some?
      && w'.index == Some(1) && w'.anchor == Bound(1)
  {
    hide Exec, Next;
    var prior, w := TwoSessionsAtOnce();
    p := 3;
    var w2 := CloserCommits(w, p, 0);
    var cmd := CloseSession(Credential(Disk(w, 0)));
    es := prior + [Begin(p, 0, cmd), Act(p, Commit(true))];
    ExecTwo(w, Begin(p, 0, cmd), Act(p, Commit(true)));
    ExecConcat(INIT, prior, [Begin(p, 0, cmd), Act(p, Commit(true))]);
    ExecConcat(INIT, es, [Act(p, Unpublish)]);
    ExecOne(w2, Act(p, Unpublish));
    UnpublishRefused(w2, p);
  }

  lemma UnpublishRefused(w: World, p: Pid)
    requires p in w.procs && w.procs[p].phase.Unpublishing? && !IndexAllows(w, w.procs[p].root)
    ensures Next(w, Act(p, Unpublish)) == Leave(w, p)
  {
  }
}
