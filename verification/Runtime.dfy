/**
 One command process at work (cli/src/runtime.rs): `admit`, `finish`, the early
 release and the session commands, as code that updates its own copy of the
 journal field by field and writes it back.  Each method is shown to commit one
 whole command of the serial journal, or nothing.  The steps in which other
 processes may come in between are the subject of `Protocol`.
 */
module Runtime {
  import opened Basics
  import opened Journal
  import P = Protocol
  import Refinement
  import H = JournalHistory

  datatype Error =
    | DeviceBusy | DeviceReserved | SessionStale | RecoveryRequired | AuthorityConflict
    | BootUnavailable | InstanceChanged | ObservationRequired | NotStored
    | ServicesActive | NoOpenSession | NothingInterrupted | NotRebooted | WorkersNotReviewed
    | DeviceUnreachable | CleanupConflict

  type Outcome = Result<(), Error>

  /** The command failed, and may have had an effect nobody knows of. */
  predicate MayHaveActed(result: Option<Failure>, changesDevice: bool, unsettled: nat) {
    result.Some? && H.MayHaveActed(result.value, changesDevice, unsettled)
  }

  lemma VerdictIsRight(result: Option<Failure>, changesDevice: bool, unsettled: nat)
    ensures Uncertain(result, changesDevice, unsettled) <==> MayHaveActed(result, changesDevice, unsettled)
  {
    hide OutcomeUncertain, H.MayHaveActed;
    if result.Some? {
      H.UncertainIff(result.value, changesDevice, unsettled);
    }
  }

  class Command {
    // what the process shares with others: the host's files and the device
    var journal: State
    var lockFree: bool
    var writable: bool
    var index: Option<P.Root>
    var services: set<P.Service>
    var reachable: bool
    var boot: nat
    var anchor: P.Anchor
    var nextId: nat
    // what is its own
    const root: P.Root
    const pid: Pid
    const token: Option<Token>
    var active: Option<P.Operation>
    var unsettled: nat

    constructor (journal: State, root: P.Root, pid: Pid, token: Option<Token>)
      ensures this.journal == journal && this.root == root && this.pid == pid && this.token == token
      ensures active.None? && unsettled == 0
    {
      this.journal, this.root, this.pid, this.token := journal, root, pid, token;
      lockFree, writable, services, reachable := true, true, {}, true;
      index, anchor, boot, nextId, active, unsettled := None, P.Absent, 0, 0, None, 0;
    }

    predicate MarkerIsMine()
      reads this
    {
      anchor == P.Bound(root) || anchor.Absent? || (anchor.Ownerless? && anchor.madeAt < boot)
    }

    /** Run the claim script; the marker must then name this authority. */
    method ClaimMarker() returns (mine: bool)
      modifies this`anchor
      ensures mine == old(MarkerIsMine())
      ensures mine ==> anchor == P.Bound(root)
      ensures !mine ==> anchor == old(anchor)
    {
      if anchor.Absent? || P.Abandoned(anchor, boot) {
        anchor := P.Bound(root);
      }
      mine := anchor == P.Bound(root);
    }

    /** The removal script reports success: the marker is this authority's, or gone. */
    predicate MarkerGoes()
      reads this
    {
      reachable && (anchor == P.Bound(root) || anchor.Absent?)
    }

    /** Remove the marker if it is this authority's; anything else that is there
        stays, and is reported. */
    method ReleaseMarker() returns (r: Outcome)
      modifies this`anchor
      ensures r.Ok? <==> old(MarkerGoes())
      ensures r == Err(DeviceUnreachable) <==> !reachable
      ensures r == Err(CleanupConflict) <==> reachable && !old(MarkerGoes())
      ensures anchor == if r.Ok? then P.Absent else old(anchor)
    {
      if !reachable {
        return Err(DeviceUnreachable);
      }
      if anchor == P.Bound(root) {
        anchor := P.Absent;
      }
      return if anchor.Absent? then Ok(()) else Err(CleanupConflict);
    }

    method WriteState(state: State) returns (stored: bool)
      modifies this`journal
      ensures stored == writable && journal == if stored then state else old(journal)
    {
      stored := writable;
      if stored {
        journal := state;
      }
    }

    method CheckOwner(state: State) returns (r: Outcome)
      ensures r.Ok? <==> VerifyOwner(state, token)
      ensures r == Err(DeviceReserved) <==> state.owner.Some? && token != Some(state.owner.value.token)
      ensures r == Err(SessionStale) <==> state.owner.None? && token.Some?
    {
      if state.owner.Some? {
        r := if token == Some(state.owner.value.token) then Ok(()) else Err(DeviceReserved);
      } else {
        r := if token.None? then Ok(()) else Err(SessionStale);
      }
    }

    /** The boot identity under which `name` would be admitted now. */
    function AdmissionBoot(name: CommandName): Boot
      reads this
    {
      if reachable then At(boot) else P.OfflineBoot(ClearStale(journal))
    }

    function Admission(name: CommandName): Op
      reads this
    {
      Op.Admit(token, InFlight(nextId, name, pid, AdmissionBoot(name)), boot, reachable)
    }

    predicate MarkerAccepts()
      reads this
    {
      reachable ==> MarkerIsMine()
    }

    /** `admit`: succeeds exactly when every guard holds, and then commits the
        admission to the journal as it was when the lock was taken. */
    method Admit(name: CommandName) returns (r: Outcome)
      requires active.None?
      modifies this
      ensures r.Ok? <==>
        && old(lockFree) && old(writable) && (old(index).None? || old(index) == Some(root))
        && (old(reachable) || AllowsOfflineControl(name.path))
        && old(MarkerAccepts()) && Legal(old(journal), old(Admission(name)))
      ensures r.Ok? ==> journal == Apply(old(journal), old(Admission(name)))
      ensures r.Ok? ==> !lockFree && unsettled == 0 && active == Some(P.Operation(
        journal.owner.None? && name.changesDevice && reachable, name, reachable,
        ClearStale(old(journal)).inFlight.Some?, journal)) && Admitted()
      ensures r.Err? ==> journal == old(journal) && active.None? && lockFree == old(lockFree)
      ensures
        var claims := old(reachable) && (old(journal).owner.Some? || name.changesDevice);
        && (r.Ok? && claims ==> anchor == P.Bound(root))
        && (anchor == old(anchor) || (claims && anchor == P.Bound(root) && old(MarkerIsMine())))
      ensures r == Err(DeviceBusy) <==> !old(lockFree)
      ensures r == Err(RecoveryRequired) <==>
        && old(lockFree) && VerifyOwner(old(journal), token)
        && ClearStale(old(journal)).inFlight.Some? && !IsCleanup(name.path)
      ensures r == Err(AuthorityConflict) ==>
        (old(index).Some? && old(index) != Some(root)) || !old(MarkerAccepts())
      ensures r == Err(BootUnavailable) ==> !old(reachable) && !AllowsOfflineControl(name.path)
      ensures r == Err(InstanceChanged) ==>
        old(journal).owner.Some? && old(journal).owner.value.boot != old(AdmissionBoot(name))
      ensures r == Err(ObservationRequired) ==> old(journal).owner.Some? && old(journal).owner.value.needsObservation
    {
      if !lockFree {
        return Err(DeviceBusy);
      }
      var state := journal;
      var checked := CheckOwner(state);
      if checked.Err? {
        return checked;
      }
      if state.owner.None? && state.inFlight.Some? {
        state := state.(lastCompletion := Some(ClearedStale(state.inFlight)));
        state := state.(inFlight := None);
      }
      var recoveryCleanup := state.inFlight.Some? && IsCleanup(name.path);
      if !recoveryCleanup && state.inFlight.Some? {
        return Err(RecoveryRequired);
      }
      if index.Some? && index != Some(root) {
        return Err(AuthorityConflict);
      }
      var online := reachable;
      var bootId;
      if online {
        bootId := At(boot);
      } else if AllowsOfflineControl(name.path) {
        bootId := if state.owner.Some? then state.owner.value.boot else Unavailable;
      } else {
        return Err(BootUnavailable);
      }
      if online {
        var mine;
        if state.owner.Some? || name.changesDevice {
          mine := ClaimMarker();
        } else {
          mine := anchor == P.Bound(root) || anchor.Absent? || P.Abandoned(anchor, boot);
        }
        if !mine {
          return Err(AuthorityConflict);
        }
      }
      if state.owner.Some? && !recoveryCleanup {
        if state.owner.value.boot != bootId {
          return Err(InstanceChanged);
        }
        if state.owner.value.needsObservation {
          return Err(ObservationRequired);
        }
      }
      if !recoveryCleanup {
        state := state.(inFlight := Some(InFlight(nextId, name, pid, bootId)));
        nextId := nextId + 1;
      }
      var stored := WriteState(state);
      if !stored {
        return Err(NotStored);
      }
      unsettled := 0;
      lockFree := false;
      active := Some(P.Operation(state.owner.None? && name.changesDevice && online, name, online, recoveryCleanup, state));
      return Ok(());
    }

    /** The entry `finish` would commit for the operation in memory. */
    function Completion(result: Option<Failure>): Op
      reads this
      requires active.Some?
    {
      if active.value.recoveryCleanup then FinishCleanup(result, active.value.name.changesDevice, unsettled)
      else Op.Finish(pid, result, active.value.name.changesDevice, unsettled, active.value.state.inFlight)
    }

    /** What an admitted operation may rely on: nobody else wrote the journal. */
    predicate Admitted()
      reads this
    {
      active.Some? && !lockFree && Refinement.InSync(active.value, journal, pid)
    }

    /** The marker goes with the completed operation. */
    predicate FreesMarker()
      reads this
    {
      active.Some? && active.value.releaseAnchor && !active.value.recoveryCleanup
    }

    /** `finish`: an uncertain outcome keeps journal, operation and lock; a
        certain one commits the completion and ends the operation, even when the
        marker then cannot be removed, or keeps all three if it cannot be written. */
    method Finish(result: Option<Failure>) returns (r: Outcome)
      requires active.Some? ==> Admitted()
      modifies this
      ensures old(active).None? ==> r.Ok? && journal == old(journal) && active.None? && anchor == old(anchor)
      ensures old(active).Some? && MayHaveActed(result, old(active).value.name.changesDevice, old(unsettled)) ==>
        r.Ok? && journal == old(journal) && active == old(active) && !lockFree && anchor == old(anchor)
      ensures old(active).Some? && !MayHaveActed(result, old(active).value.name.changesDevice, old(unsettled)) ==>
        && Legal(old(journal), old(Completion(result)))
        && journal == (if old(writable) then Apply(old(journal), old(Completion(result))) else old(journal))
        && active.None? == lockFree == old(writable)
        && (r == Err(NotStored) <==> !old(writable))
        && (r.Ok? <==> old(writable) && (old(FreesMarker()) ==> old(MarkerGoes())))
        && anchor == (if old(writable) && old(FreesMarker()) && old(MarkerGoes()) then P.Absent else old(anchor))
    {
      hide OutcomeUncertain, H.MayHaveActed;
      if active.None? {
        return Ok(());
      }
      var operation := active.value;
      VerdictIsRight(result, operation.name.changesDevice, unsettled);
      if result.Some? && OutcomeUncertain(result.value, operation.name.changesDevice, unsettled) {
        return Ok(());
      }
      var state := operation.state;
      if operation.recoveryCleanup {
        state := state.(lastCleanup := Some(result.None?));
      } else {
        var request := state.inFlight;
        state := state.(inFlight := None);
        state := state.(lastCompletion := Some(Finished(request, result.None?)));
      }
      var stored := WriteState(state);
      if !stored {
        active := Some(operation.(state := state));
        return Err(NotStored);
      }
      active := None;
      lockFree := true;
      r := Ok(());
      if operation.releaseAnchor && !operation.recoveryCleanup {
        r := ReleaseMarker();
      }
    }

    predicate MayEndEarly()
      reads this
    {
      unsettled == 0 && active.Some? && !active.value.recoveryCleanup
    }

    /** `release_for_passive_wait`: admission ends exactly when it may and the
        write succeeds; a marker that then cannot be removed is reported. */
    method ReleaseForPassiveWait() returns (r: Result<bool, Error>)
      requires active.Some? ==> Admitted()
      modifies this
      ensures r == Ok(false) <==> !old(MayEndEarly())
      ensures r == Err(NotStored) <==> old(MayEndEarly()) && !old(writable)
      ensures r == Ok(true) <==>
        old(MayEndEarly()) && old(writable) && (old(FreesMarker()) ==> old(MarkerGoes()))
      ensures old(MayEndEarly()) && old(writable) ==>
        && Legal(old(journal), ReleaseEarly(pid, 0, old(active).value.state.inFlight))
        && journal == Apply(old(journal), ReleaseEarly(pid, 0, old(active).value.state.inFlight))
        && active.None? && lockFree
      ensures !(old(MayEndEarly()) && old(writable)) ==>
        journal == old(journal) && lockFree == old(lockFree) && (old(active).Some? ==> Admitted())
      ensures r == Ok(false) ==> active == old(active)
      ensures anchor == if r == Ok(true) && old(FreesMarker()) then P.Absent else old(anchor)
    {
      if unsettled > 0 || active.None? || active.value.recoveryCleanup {
        return Ok(false);
      }
      var operation := active.value;
      var request := operation.state.inFlight;
      var state := operation.state.(inFlight := None);
      state := state.(lastCompletion := Some(ReleasedEarly(request)));
      var stored := WriteState(state);
      if !stored {
        active := Some(operation.(state := state));
        return Err(NotStored);
      }
      active := None;
      lockFree := true;
      if operation.releaseAnchor {
        var removed := ReleaseMarker();
        if removed.Err? {
          return Err(removed.error);
        }
      }
      return Ok(true);
    }

    method OpenSession() returns (r: Outcome)
      requires active.None?
      modifies this
      ensures r.Ok? <==>
        && old(lockFree) && old(writable) && old(services) == {} && old(MarkerIsMine()) && old(reachable)
        && Legal(old(journal), Open(old(nextId), At(old(boot))))
      ensures r.Ok? ==> journal == Apply(old(journal), Open(old(nextId), At(old(boot))))
      ensures r.Ok? ==> anchor == P.Bound(root) && index == Some(root) && nextId == old(nextId) + 1
      ensures r.Err? ==> journal == old(journal)
    {
      if !lockFree {
        return Err(DeviceBusy);
      }
      var state := journal;
      if state.inFlight.Some? {
        return Err(RecoveryRequired);
      }
      if state.owner.Some? {
        return Err(DeviceReserved);
      }
      if services != {} {
        return Err(ServicesActive);
      }
      if !reachable {
        return Err(BootUnavailable);
      }
      var mine := ClaimMarker();
      if !mine {
        return Err(AuthorityConflict);
      }
      index := Some(root);
      state := state.(generation := state.generation + 1);
      state := state.(owner := Some(Owner(nextId, At(boot), state.generation, true)));
      nextId := nextId + 1;
      var stored := WriteState(state);
      return if stored then Ok(()) else Err(NotStored);
    }

    /** `session observe` under a token: clears the duty to observe only when
        the boot observed is the session's. */
    method ObserveSession() returns (r: Outcome)
      requires active.None? && token.Some?
      modifies this
      ensures r.Ok? <==>
        && old(lockFree) && old(reachable) && VerifyOwner(old(journal), token)
        && (old(writable) || !Legal(old(journal), Observe(token, At(old(boot)))))
      ensures r.Ok? ==>
        if Legal(old(journal), Observe(token, At(old(boot))))
        then journal == Apply(old(journal), Observe(token, At(old(boot))))
        else journal == old(journal) && old(journal).owner.Some? && old(journal).owner.value.boot != At(old(boot))
      ensures r.Err? ==> journal == old(journal)
    {
      if !lockFree {
        return Err(DeviceBusy);
      }
      if !reachable {
        return Err(BootUnavailable);
      }
      var observed := At(boot);
      var state := journal;
      var checked := CheckOwner(state);
      if checked.Err? {
        return checked;
      }
      if state.owner.value.boot == observed {
        state := state.(owner := Some(state.owner.value.(needsObservation := false)));
        var stored := WriteState(state);
        return if stored then Ok(()) else Err(NotStored);
      }
      return Ok(());
    }

    method HandoffSession() returns (r: Outcome)
      requires active.None?
      modifies this
      ensures r.Ok? <==>
        && old(lockFree) && old(writable) && old(services) == {} && old(reachable)
        && Legal(old(journal), Handoff(token, old(nextId), At(old(boot))))
      ensures r.Ok? ==> journal == Apply(old(journal), Handoff(token, old(nextId), At(old(boot))))
      ensures r.Err? ==> journal == old(journal)
    {
      if !lockFree {
        return Err(DeviceBusy);
      }
      var state := journal;
      if state.inFlight.Some? {
        return Err(RecoveryRequired);
      }
      var checked := CheckOwner(state);
      if checked.Err? {
        return checked;
      }
      if state.owner.None? {
        return Err(NoOpenSession);
      }
      if services != {} {
        return Err(ServicesActive);
      }
      if !reachable {
        return Err(BootUnavailable);
      }
      state := state.(handoff := Some(state.generation));
      state := state.(generation := state.generation + 1);
      state := state.(owner := Some(Owner(nextId, At(boot), state.generation, true)));
      nextId := nextId + 1;
      var stored := WriteState(state);
      return if stored then Ok(()) else Err(NotStored);
    }

    /** The journal is recovered first; without an owner the marker goes as well,
        and one that cannot be removed fails the command. */
    method RecoverSession(externalWorkersStopped: bool) returns (r: Outcome)
      requires active.None?
      modifies this
      ensures
        var committed :=
          && old(lockFree) && old(writable) && externalWorkersStopped && old(services) == {} && old(reachable)
          && Legal(old(journal), Recover(token, At(old(boot))));
        var releases := committed && old(journal).owner.None?;
        && journal == (if committed then Apply(old(journal), Recover(token, At(old(boot)))) else old(journal))
        && (r.Ok? <==> committed && (releases ==> old(MarkerGoes())))
        && anchor == (if releases && old(MarkerGoes()) then P.Absent else old(anchor))
    {
      if !lockFree {
        return Err(DeviceBusy);
      }
      var state := journal;
      var checked := CheckOwner(state);
      if checked.Err? {
        return checked;
      }
      if !externalWorkersStopped {
        return Err(WorkersNotReviewed);
      }
      if state.inFlight.None? {
        return Err(NothingInterrupted);
      }
      if !reachable {
        return Err(BootUnavailable);
      }
      if At(boot) == state.inFlight.value.boot {
        return Err(NotRebooted);
      }
      if services != {} {
        return Err(ServicesActive);
      }
      state := state.(lastCompletion := Some(Recovered(state.inFlight, At(boot))));
      state := state.(inFlight := None);
      if state.owner.Some? {
        state := state.(owner := Some(state.owner.value.(boot := At(boot))));
        state := state.(owner := Some(state.owner.value.(needsObservation := true)));
      }
      var stored := WriteState(state);
      if !stored {
        return Err(NotStored);
      }
      r := Ok(());
      if state.owner.None? {
        r := ReleaseMarker();
      }
    }

    /** The journal is closed first; another authority's entry in the host index
        then still fails the command and keeps the marker, and so does a marker
        that cannot be removed. */
    method CloseSession() returns (r: Outcome)
      requires active.None?
      modifies this
      ensures
        var committed := old(lockFree) && old(writable) && old(services) == {} && Legal(old(journal), Close(token));
        var unpublishes := committed && (old(index).None? || old(index) == Some(root));
        && journal == (if committed then Apply(old(journal), Close(token)) else old(journal))
        && index == (if unpublishes then None else old(index))
        && (r.Ok? <==> unpublishes && old(MarkerGoes()))
        && anchor == (if r.Ok? then P.Absent else old(anchor))
    {
      if !lockFree {
        return Err(DeviceBusy);
      }
      var state := journal;
      if state.inFlight.Some? {
        return Err(RecoveryRequired);
      }
      var checked := CheckOwner(state);
      if checked.Err? {
        return checked;
      }
      if state.owner.None? {
        return Err(NoOpenSession);
      }
      if services != {} {
        return Err(ServicesActive);
      }
      state := state.(owner := None);
      state := state.(generation := state.generation + 1);
      var stored := WriteState(state);
      if !stored {
        return Err(NotStored);
      }
      if index.Some? && index != Some(root) {
        return Err(AuthorityConflict);
      }
      index := None;
      r := ReleaseMarker();
    }
  }
}
