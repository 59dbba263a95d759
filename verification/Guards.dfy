/** When a command goes on after asking the device: what it must have been told. */
module Guards {
  import opened Journal
  import opened Protocol
  import opened Recoverability

  /** After the boot identity is asked for: a driver goes on when no other authority
      is in the host's index and the device has answered, or its command is one
      that may do without; every other command needs the answer. */
  lemma ProbeGoesOnIff(w: World, p: Pid, reachable: bool)
    requires p in w.procs && (w.procs[p].phase.Published? || w.procs[p].phase.Entered?)
    requires w.procs[p].phase.Entered? ==> !w.procs[p].phase.cmd.OpenSession? && !w.procs[p].phase.cmd.CloseSession?
    ensures
      var r, ph, ph' := w.procs[p].root, w.procs[p].phase, ProbeStep(w, p, reachable).procs[p].phase;
      if ph.Entered? && ph.cmd.Drive? then
        ph' == (if !IndexAllows(w, r) then Exited
                else if reachable then Probed(ph.cmd, ph.state, At(w.boot))
                else if AllowsOfflineControl(ph.cmd.name.path) then Ready(ph.cmd, ph.state, OfflineBoot(ph.state), false)
                else Exited)
      else
        ph' == if reachable then Ready(if ph.Entered? then ph.cmd else OpenSession, ph.state, At(w.boot), true) else Exited
  {
    var next := AfterProbe(w, w.procs[p].root, w.procs[p].phase, reachable);
    assert next.Some? ==> ProbeStep(w, p, reachable).procs[p].phase == next.value;
  }

  /** After the marker is asked for: a command goes on exactly when it has the
      answer that the marker was free for its root, and ends otherwise. */
  lemma ClaimGoesOnIff(w: World, p: Pid, d: Delivery)
    requires p in w.procs && (w.procs[p].phase.Probed? || w.procs[p].phase.Entered?)
    requires w.procs[p].phase.Entered? ==> w.procs[p].phase.cmd.OpenSession?
    ensures
      var ph, ph' := w.procs[p].phase, ClaimStep(w, p, d).procs[p].phase;
      ph' == (if !d.Delivered? || !MarkerFree(w, w.procs[p].root) then Exited
              else if ph.Probed? then Ready(ph.cmd, ph.state, ph.boot, true)
              else Claimed(ph.state))
  {
    hide HoldsLock;
  }

  /** A claim changes the marker only for a session or a device-changing command. */
  lemma ReadersLeaveMarker(w: World, p: Pid, d: Delivery)
    requires p in w.procs && w.procs[p].phase.Probed? && w.procs[p].phase.cmd.Drive?
    requires w.procs[p].phase.state.owner.None? && !w.procs[p].phase.cmd.name.changesDevice
    ensures ClaimStep(w, p, d).anchor == w.anchor
  {
    hide HoldsLock, ReadAccepts;
  }

  /** A command that cannot write its first entry ends, with the journal as it was. */
  lemma FailedWriteEnds(w: World, p: Pid)
    requires p in w.procs
    requires w.procs[p].phase.Ready? || (w.procs[p].phase.Entered? && w.procs[p].phase.cmd.CloseSession?)
    ensures
      var w' := CommitStep(w, p, false);
      w'.procs[p].phase.Exited? && w'.journals == w.journals && w'.locks == w.locks - {w.procs[p].root}
  {
  }
}
