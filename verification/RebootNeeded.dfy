/**
 When a recovery needs a reboot.  It does exactly when the request in flight
 recorded the current boot; three runs show how a request comes to record
 another one and is then recovered at the very boot it was admitted at.
 */
module RebootNeeded {
  import opened Basics
  import opened Journal
  import opened Protocol
  import opened Refinement
  import opened Guarantees
  import opened BootOrder
  import opened Recoverability

  predicate WithoutReboot(es: seq<Event>) {
    forall i :: 0 <= i < |es| ==> !es[i].Reboot?
  }

  /** In the course of `more`, the request in flight after `es` is recovered. */
  ghost predicate RecoveredIn(es: seq<Event>, more: seq<Event>, r: Root) {
    exists n :: && |Log(Exec(INIT, es), r)| <= n < |Log(Exec(INIT, es + more), r)|
      && Log(Exec(INIT, es + more), r)[n].Recover?
      && JournalAt(es + more, r, n).inFlight == Disk(Exec(INIT, es), r).inFlight
  }

  lemma BootStays(w: World, e: Event)
    requires !e.Reboot?
    ensures Next(w, e).boot == w.boot
  {
    hide ActStep, JournalAllows;
    if e.Act? && e.p in w.procs {
      ActMarkerBoot(w, e.p, e.action);
    }
  }

  lemma {:induction false} SameBoot(w: World, es: seq<Event>)
    requires WithoutReboot(es)
    ensures Exec(w, es).boot == w.boot
  {
    hide Next;
    if es != [] {
      SameBoot(w, es[..|es| - 1]);
      BootStays(Exec(w, es[..|es| - 1]), es[|es| - 1]);
    }
  }

  /** A request that recorded the current boot stays until the device reboots. */
  lemma NotBeforeReboot(es: seq<Event>, more: seq<Event>, r: Root)
    requires Disk(Exec(INIT, es), r).inFlight.Some?
    requires Disk(Exec(INIT, es), r).inFlight.value.boot == At(Exec(INIT, es).boot) && WithoutReboot(more)
    ensures !RecoveredIn(es, more, r)
  {
    hide Exec, RecoveredBy, AdmittedBy;
    if RecoveredIn(es, more, r) {
      var log := Log(Exec(INIT, es + more), r);
      var n :| && |Log(Exec(INIT, es), r)| <= n < |log| && log[n].Recover?
        && JournalAt(es + more, r, n).inFlight == Disk(Exec(INIT, es), r).inFlight;
      RecoveryIsNewer(es + more, r, n);
      RecoveryIsPast(es + more, r, n);
      ExecConcat(INIT, es, more);
      SameBoot(Exec(INIT, es), more);
    }
  }

  lemma RecoveryIsPast(es: seq<Event>, r: Root, n: nat)
    requires n < |Log(Exec(INIT, es), r)| && Log(Exec(INIT, es), r)[n].Recover?
    ensures Log(Exec(INIT, es), r)[n].boot.At? && Log(Exec(INIT, es), r)[n].boot.id <= Exec(INIT, es).boot
  {
    hide Exec;
    DatesHold(es);
    assert RecoveredBy(Log(Exec(INIT, es), r), Exec(INIT, es).boot);
  }

  /** A request that recorded anything else is recovered at once. */
  lemma RecoversAtOnce(es: seq<Event>, r: Root) returns (more: seq<Event>, n: nat)
    requires r !in Exec(INIT, es).locks && Exec(INIT, es).services == {}
    requires Disk(Exec(INIT, es), r).inFlight.Some?
    requires Disk(Exec(INIT, es), r).inFlight.value.boot != At(Exec(INIT, es).boot)
    ensures WithoutReboot(more) && n == |Log(Exec(INIT, es), r)|
    ensures
      var log := Log(Exec(INIT, es + more), r);
      && |log| == n + 1 && log[..n] == Log(Exec(INIT, es), r)
      && log[n].Recover? && log[n].boot == At(Exec(INIT, es).boot)
      && JournalAt(es + more, r, n).inFlight == Disk(Exec(INIT, es), r).inFlight
  {
    hide Exec;
    var w := Exec(INIT, es);
    var p := FreshPid(w.procs.Keys);
    more := RecoverEvents(p, r, Credential(Disk(w, r)));
    var w' := RecoverRuns(w, p, r);
    n := |Log(w, r)|;
    ExecConcat(INIT, es, more);
    LoggedPrefix(es, more, r);
  }

  /** With the services stopped and the lock free, the request in flight can be
      recovered without a reboot exactly when it recorded another boot than the
      current one. */
  lemma RebootNeededIff(es: seq<Event>, r: Root)
    requires r !in Exec(INIT, es).locks && Exec(INIT, es).services == {}
    requires Disk(Exec(INIT, es), r).inFlight.Some?
    ensures (forall more :: RecoveredIn(es, more, r) ==> !WithoutReboot(more))
      <==> Disk(Exec(INIT, es), r).inFlight.value.boot == At(Exec(INIT, es).boot)
  {
    hide Exec, RecoveredIn, WithoutReboot;
    if Disk(Exec(INIT, es), r).inFlight.value.boot == At(Exec(INIT, es).boot) {
      forall more | RecoveredIn(es, more, r) ensures !WithoutReboot(more) {
        if WithoutReboot(more) {
          NotBeforeReboot(es, more, r);
        }
      }
    } else {
      var more := WitnessAtOnce(es, r);
    }
  }

  lemma WitnessAtOnce(es: seq<Event>, r: Root) returns (more: seq<Event>)
    requires r !in Exec(INIT, es).locks && Exec(INIT, es).services == {}
    requires Disk(Exec(INIT, es), r).inFlight.Some?
    requires Disk(Exec(INIT, es), r).inFlight.value.boot != At(Exec(INIT, es).boot)
    ensures WithoutReboot(more) && RecoveredIn(es, more, r)
  {
    hide Exec;
    var n;
    more, n := RecoversAtOnce(es, r);
  }

  // ---- recovered at the boot of admission -----------------------------------------------

  /** Command `n` recovered the request of admission `m` at the boot it was made at. */
  ghost predicate SameBootRecovery(es: seq<Event>, r: Root, m: nat, n: nat) {
    Interrupted(es, r, m, n) && Log(Exec(INIT, es), r)[n].boot == At(Log(Exec(INIT, es), r)[m].at)
  }

  /** The last command in the history admitted the request in flight, now, under
      another boot identity. */
  predicate JustAdmitted(w: World, r: Root) {
    && Log(w, r) != [] && w.services == {}
    && var op := Log(w, r)[|Log(w, r)| - 1];
    op.Admit? && Disk(w, r).inFlight == Some(op.request) && op.at == w.boot && op.request.boot != At(w.boot)
  }

  /** Its process crashes, and the request is recovered. */
  lemma CrashAndRecover(es: seq<Event>, r: Root) returns (all: seq<Event>, m: nat, n: nat)
    requires JustAdmitted(Exec(INIT, es), r)
    ensures SameBootRecovery(all, r, m, n)
    ensures m + 1 == |Log(Exec(INIT, es), r)| && Log(Exec(INIT, all), r)[m] == Log(Exec(INIT, es), r)[m]
  {
    hide Exec, Inv;
    var w := Exec(INIT, es);
    Reachable(es);
    var crash, w1 := HolderCrashes(w, r);
    ExecConcat(INIT, es, crash);
    CrashKeepsLog(w, crash, w1, r);
    var more;
    more, n := RecoversAtOnce(es + crash, r);
    all := es + crash + more;
    m := |Log(w, r)| - 1;
    assert Log(Exec(INIT, all), r)[..n][m] == Log(w, r)[m];
  }

  lemma CrashKeepsLog(w: World, crash: seq<Event>, w1: World, r: Root)
    requires Leads(w, crash, w1, r) && w1.logs == w.logs
    ensures Log(w1, r) == Log(w, r)
  {
  }

  /** A control command of a session against an unreachable device records the
      session's boot, which may be an old one. */
  lemma OwnedOffline() returns (es: seq<Event>, m: nat, n: nat)
    ensures SameBootRecovery(es, 0, m, n)
    ensures var op := Log(Exec(INIT, es), 0)[m]; op.token.Some? && !op.online && op.request.boot.At?
  {
    hide Exec, Next, Inv, DeviceKept;
    var w1 := OpenRuns(INIT, 0, 0);
    var w2 := ObserveRuns(w1, 1, 0);
    var w3 := Next(w2, Reboot);
    RebootedOnly(w2);
    var w4 := StopIsAdmitted(w3, 2, 0, Proxy);
    var open, look := OpenEvents(0, 0), ObserveEvents(1, 0, Credential(Disk(w1, 0)));
    var stop := StopEvents(2, 0, Credential(Disk(w3, 0)), Proxy);
    ExecConcat(INIT, open, look);
    ExecOne(w2, Reboot);
    ExecConcat(INIT, open + look, [Reboot]);
    ExecConcat(INIT, open + look + [Reboot], stop);
    StoppedOnly(w3, w4);
    es, m, n := CrashAndRecover(open + look + [Reboot] + stop, 0);
  }

  lemma RebootedOnly(w: World)
    ensures Next(w, Reboot) == w.(boot := w.boot + 1)
  {
  }

  lemma StoppedOnly(w: World, w': World)
    requires DeviceKept(w, w')
    ensures w'.boot == w.boot && w'.services == w.services
  {
  }

  /** Without a session such a command records no boot at all. */
  lemma UnownedOffline() returns (es: seq<Event>, m: nat, n: nat)
    ensures SameBootRecovery(es, 0, m, n)
    ensures var op := Log(Exec(INIT, es), 0)[m]; op.token.None? && !op.online && op.request.boot.Unavailable?
  {
    hide Exec, Next, Inv, DeviceKept;
    var w1 := StopIsAdmitted(INIT, 0, 0, Proxy);
    StoppedOnly(INIT, w1);
    ExecConcat(INIT, [], StopEvents(0, 0, None, Proxy));
    assert [] + StopEvents(0, 0, None, Proxy) == StopEvents(0, 0, None, Proxy);
    es, m, n := CrashAndRecover(StopEvents(0, 0, None, Proxy), 0);
  }

  /** A reboot between reading the boot identity and writing the journal leaves
      an online command, too, with an old one. */
  lemma OnlineAcrossReboot() returns (es: seq<Event>, m: nat, n: nat)
    ensures SameBootRecovery(es, 0, m, n)
    ensures var op := Log(Exec(INIT, es), 0)[m]; op.online && op.request.boot.At?
  {
    hide Exec, Next, Inv, DeviceKept;
    var name := CommandName(Other, true);
    var w2 := DriverEnters(INIT, 0, 0, None, name);
    var w3 := DriverClaims(w2, 0);
    var w4 := Next(w3, Reboot);
    RebootedOnly(w3);
    var w5 := DriverCommits(w4, 0);
    StoppedOnly(w4, w5);
    var run := [Begin(0, 0, Drive(None, name)), Act(0, ProbeBoot(true)), Act(0, Claim(Delivered)), Reboot,
                Act(0, Commit(true))];
    ExecFive(INIT, run[0], run[1], run[2], run[3], run[4]);
    es, m, n := CrashAndRecover(run, 0);
  }
}
