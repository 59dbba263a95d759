/** What a command that meets no obstacle leaves behind: the lock, the journal's entry
    and, without a session, the marker are as free as it found them. */
module CleanCommands {
  import opened Basics
  import opened Journal
  import opened Protocol
  import opened Guarantees
  import opened Recoverability

  /** The root is idle and its next driver would be admitted. */
  predicate Idle(w: World, p: Pid, r: Root) {
    && p !in w.procs && r !in w.locks && IndexAllows(w, r) && MarkerFree(w, r)
    && Disk(w, r).inFlight.None? && MayDrive(Disk(w, r), At(w.boot))
  }

  /** Only the completion is new in the journal; the lock is free again; a session
      keeps its marker, and without one a device-changing command takes it away. */
  predicate Clean(w: World, w': World, r: Root, name: CommandName, done: Completion) {
    && Disk(w', r) == Disk(w, r).(lastCompletion := Some(done))
    && w'.locks == w.locks && w'.index == w.index && w'.services == w.services && w'.boot == w.boot
    && w'.anchor == (if Disk(w, r).owner.Some? then Bound(r) else if name.changesDevice then Absent else w.anchor)
  }

  function Request(w: World, p: Pid, name: CommandName): InFlight {
    InFlight(w.nextId, name, p, At(w.boot))
  }

  lemma Completes(w: World, p: Pid, ok: bool) returns (w': World)
    requires p in w.procs && w.procs[p].phase.Active? && !w.procs[p].phase.op.recoveryCleanup
    requires w.procs[p].unsettled == 0
    ensures w' == Next(w, Act(p, if ok then Complete(None, true) else PassiveWait(true)))
    ensures DeviceKept(w, w')
    ensures
      var r, op := w.procs[p].root, w.procs[p].phase.op;
      var done := if ok then Finished(op.state.inFlight, true) else ReleasedEarly(op.state.inFlight);
      && p in w'.procs && w'.procs[p].root == r
      && w'.procs[p].phase == (if !op.releaseAnchor then Exited else if ok then Releasing else LateReleasing)
      && w'.locks == (if op.releaseAnchor && ok then w.locks else w.locks - {r})
      && Disk(w', r) == op.state.(inFlight := None, lastCompletion := Some(done))
  {
    w' := Next(w, Act(p, if ok then Complete(None, true) else PassiveWait(true)));
  }

  lemma LastStep(w: World, p: Pid) returns (w': World)
    requires p in w.procs && (w.procs[p].phase.Releasing? || w.procs[p].phase.LateReleasing? || w.procs[p].phase.Exited?)
    ensures w' == Next(w, Act(p, Release(Delivered)))
    ensures w'.journals == w.journals && w'.index == w.index && w'.services == w.services && w'.boot == w.boot
    ensures w'.locks == if w.procs[p].phase.Releasing? then w.locks - {w.procs[p].root} else w.locks
    ensures w'.anchor == if !w.procs[p].phase.Exited? && w.anchor == Bound(w.procs[p].root) then Absent else w.anchor
  {
    w' := Next(w, Act(p, Release(Delivered)));
  }

  /** A driver that is admitted, ends well (or ends its admission early) and removes
      its marker leaves the root clean. */
  lemma CommandCleansUp(w: World, p: Pid, r: Root, name: CommandName, ok: bool) returns (es: seq<Event>, w': World)
    requires Idle(w, p, r)
    ensures es == DriverEvents(p, r, Credential(Disk(w, r)), name)
                  + [Act(p, if ok then Complete(None, true) else PassiveWait(true)), Act(p, Release(Delivered))]
    ensures w' == Exec(w, es)
    ensures
      var request := Some(Request(w, p, name));
      Clean(w, w', r, name, if ok then Finished(request, true) else ReleasedEarly(request))
  {
    hide Exec, Next, MarkerFree, IndexAllows;
    var drive := DriverEvents(p, r, Credential(Disk(w, r)), name);
    var w1 := DriverRuns(w, p, r, Credential(Disk(w, r)), name);
    var w2 := Completes(w1, p, ok);
    w' := LastStep(w2, p);
    var end, release := Act(p, if ok then Complete(None, true) else PassiveWait(true)), Act(p, Release(Delivered));
    ExecTwo(w1, end, release);
    es := drive + [end, release];
    ExecConcat(w, drive, [end, release]);
    assert w.locks[r := p] - {r} == w.locks;
  }

  /** A session that is opened and closed again leaves neither entry nor marker. */
  lemma SessionCleansUp(w: World, p: Pid, q: Pid, r: Root) returns (es: seq<Event>, w': World)
    requires p !in w.procs && q !in w.procs && p != q && r !in w.locks && w.services == {} && MarkerFree(w, r)
    requires Disk(w, r).owner.None? && Disk(w, r).inFlight.None?
    ensures w' == Exec(w, es) && w'.index.None? && w'.anchor.Absent? && w'.locks == w.locks
    ensures Disk(w', r).owner.None? && Disk(w', r).inFlight.None?
  {
    hide Exec, Next, MarkerFree;
    var w1 := OpenRuns(w, p, r);
    w' := CloseRuns(w1, q, r);
    es := OpenEvents(p, r) + CloseEvents(q, r, Credential(Disk(w1, r)));
    ExecConcat(w, OpenEvents(p, r), CloseEvents(q, r, Credential(Disk(w1, r))));
  }
}
