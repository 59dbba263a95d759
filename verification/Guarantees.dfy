/** The history properties of the journal, carried over to concurrent runs. */
module Guarantees {
  import opened Basics
  import opened Journal
  import opened JournalHistory
  import opened Protocol
  import opened Refinement

  lemma {:induction false} ExecConcat(w: World, a: seq<Event>, b: seq<Event>)
    ensures Exec(w, a + b) == Exec(Exec(w, a), b)
    decreases |b|
  {
    if b == [] {
      assert a + b == a;
    } else {
      ExecConcat(w, a, b[..|b| - 1]);
      assert (a + b)[..|a + b| - 1] == a + b[..|b| - 1];
    }
  }

  /** Exactly one whole command was applied to the journal and logged. */
  predicate CommitsOne(j: State, log: seq<Op>, j': State, log': seq<Op>) {
    && |log'| == |log| + 1 && log <= log'
    && Legal(j, log'[|log|]) && j' == Apply(j, log'[|log|])
  }

  lemma ActCommitsOne(w: World, p: Pid, a: Action, r: Root)
    requires LockInv(w) && Known(w, p)
    ensures
      var w' := ActStep(w, p, a);
      || (Disk(w', r) == Disk(w, r) && Log(w', r) == Log(w, r))
      || (r in w.locks && w.locks[r] == p && CommitsOne(Disk(w, r), Log(w, r), Disk(w', r), Log(w', r)))
  {
    var op := ActShape(w, p, a);
    ShapeCommitsOne(w, ActStep(w, p, a), p, op, r);
  }

  lemma ShapeCommitsOne(w: World, w': World, p: Pid, op: Op, r: Root)
    requires LockInv(w) && (Quiet(w, w', p) || Writes(w, w', p, op))
    ensures
      || (Disk(w', r) == Disk(w, r) && Log(w', r) == Log(w, r))
      || (r in w.locks && w.locks[r] == p && CommitsOne(Disk(w, r), Log(w, r), Disk(w', r), Log(w', r)))
  {
    if Quiet(w, w', p) {
      SameDisk(w, w');
    } else {
      OtherDisk(w, w', p, op);
    }
  }

  /** The journal of `r` is untouched, or the holder of its lock committed. */
  predicate UntouchedOrCommitted(w: World, e: Event, r: Root) {
    var w' := Next(w, e);
    || (Disk(w', r) == Disk(w, r) && Log(w', r) == Log(w, r))
    || (e.Act? && r in w.locks && w.locks[r] == e.p
        && CommitsOne(Disk(w, r), Log(w, r), Disk(w', r), Log(w', r)))
  }

  lemma StepCommitsOne(w: World, e: Event, r: Root)
    requires Inv(w)
    ensures UntouchedOrCommitted(w, e, r)
  {
    if e.Act? && e.p in w.procs {
      assert Known(w, e.p);
      ActCommitsOne(w, e.p, e.action, r);
    } else {
      SameDisk(w, Next(w, e));
    }
  }

  /** One step changes at most one journal, that of the root whose lock its
      process holds, and then by one whole command on what is on disk now:
      no update read from an older journal is ever written back. */
  lemma NoLostUpdate(es: seq<Event>, e: Event, r: Root)
    ensures UntouchedOrCommitted(Exec(INIT, es), e, r)
  {
    Reachable(es);
    StepCommitsOne(Exec(INIT, es), e, r);
  }

  /** While a process is admitted or quarantined its memory is the journal on
      disk; after a failed early release only the request is gone from memory. */
  lemma MemoryIsJournal(es: seq<Event>, p: Pid)
    requires p in Exec(INIT, es).procs
    requires Exec(INIT, es).procs[p].phase.Active? || Exec(INIT, es).procs[p].phase.Quarantined?
    ensures
      var w := Exec(INIT, es);
      var op, j := w.procs[p].phase.op, Disk(w, w.procs[p].root);
      && j.inFlight.Some?
      && (op.state == j || (op.state.inFlight.None? && !op.recoveryCleanup
                            && op.state == j.(inFlight := None, lastCompletion := op.state.lastCompletion)))
  {
    Reachable(es);
    assert Known(Exec(INIT, es), p);
  }

  lemma {:induction false} LogsGrow(a: seq<Event>, b: seq<Event>, r: Root)
    ensures Log(Exec(INIT, a), r) <= Log(Exec(INIT, a + b), r)
    decreases |b|
  {
    if b == [] {
      assert a + b == a;
    } else {
      var b' := b[..|b| - 1];
      LogsGrow(a, b', r);
      NoLostUpdate(a + b', b[|b| - 1], r);
      assert (a + b)[..|a + b| - 1] == a + b';
    }
  }

  lemma LoggedPrefix(a: seq<Event>, b: seq<Event>, r: Root)
    ensures
      var all := Log(Exec(INIT, a + b), r);
      && LegalRun(all) && |Log(Exec(INIT, a), r)| <= |all|
      && Before(all, |Log(Exec(INIT, a), r)|) == Disk(Exec(INIT, a), r)
      && Before(all, |all|) == Disk(Exec(INIT, a + b), r)
  {
    LogsGrow(a, b, r);
    Reachable(a);
    Reachable(a + b);
    var all := Log(Exec(INIT, a + b), r);
    assert all[..|Log(Exec(INIT, a), r)|] == Log(Exec(INIT, a), r);
    assert all[..|all|] == all;
  }

  /** Whatever processes do, crash or reboot: a request in flight on a reserved
      device is still there, under the same owner and generation, or was settled
      by its own process's certain outcome or by its owner's recovery. */
  lemma QuarantineHolds(a: seq<Event>, b: seq<Event>, r: Root, q: InFlight, o: Owner) returns (k: nat)
    requires Disk(Exec(INIT, a), r).owner == Some(o) && Disk(Exec(INIT, a), r).inFlight == Some(q)
    ensures
      var g := Disk(Exec(INIT, a), r).generation;
      var all := Log(Exec(INIT, a + b), r);
      || HeldBy(Disk(Exec(INIT, a + b), r), q, o.token, g)
      || (&& |Log(Exec(INIT, a), r)| <= k < |all| && LegalRun(all)
          && HeldBy(Before(all, k), q, o.token, g) && Settles(all[k], q, o))
  {
    LoggedPrefix(a, b, r);
    var all, i := Log(Exec(INIT, a + b), r), |Log(Exec(INIT, a), r)|;
    var g := Disk(Exec(INIT, a), r).generation;
    Quarantine(all, i, |all|);
    k := i;
    if !HeldBy(Before(all, |all|), q, o.token, g) {
      k :| i <= k < |all| && HeldBy(Before(all, k), q, o.token, g) && Settles(all[k], q, o);
    }
  }

  /** The generation in the journal is always that of its owner. */
  lemma GenerationMatches(es: seq<Event>, r: Root)
    ensures Disk(Exec(INIT, es), r).owner.Some? ==>
      Disk(Exec(INIT, es), r).owner.value.generation == Disk(Exec(INIT, es), r).generation
  {
    Reachable(es);
    OwnerGeneration(Log(Exec(INIT, es), r));
  }

  /** The journal of `r` as it was before the `n`th command it has seen. */
  ghost function JournalAt(es: seq<Event>, r: Root, n: nat): State
    requires n <= |Log(Exec(INIT, es), r)|
  {
    Reachable(es);
    Before(Log(Exec(INIT, es), r), n)
  }

  /** Every driver command admitted under a session token was preceded by an
      observation with that token at the same boot, after the token was issued
      and after any recovery. */
  lemma DriversHaveObserved(es: seq<Event>, r: Root, n: nat) returns (i: nat, k: nat)
    requires n < |Log(Exec(INIT, es), r)| && Log(Exec(INIT, es), r)[n].Admit?
    requires Log(Exec(INIT, es), r)[n].token.Some?
    requires !JoinsQuarantine(JournalAt(es, r, n), Log(Exec(INIT, es), r)[n].request.command.path)
    ensures
      var log := Log(Exec(INIT, es), r);
      && i < k < n && Issued(log[i]) == log[n].token
      && log[k] == Observe(log[n].token, log[n].request.boot)
      && NoSessionChange(log, k, n)
  {
    hide Exec, Inv;
    Reachable(es);
    LogIsLegal(Exec(INIT, es), r);
    i, k := ObserveBeforeDrive(Log(Exec(INIT, es), r), n);
  }

  lemma LogIsLegal(w: World, r: Root)
    requires Inv(w)
    ensures LegalRun(Log(w, r))
  {
  }

  /** A token handed off or closed never again gets a command into the journal. */
  lemma RevokedForEver(a: seq<Event>, b: seq<Event>, r: Root, i: nat, n: nat)
    requires i < |Log(Exec(INIT, a), r)| <= n < |Log(Exec(INIT, a + b), r)|
    requires var op := Log(Exec(INIT, a), r)[i]; (op.Handoff? || op.Close?) && Presented(op).Some?
    ensures Presented(Log(Exec(INIT, a + b), r)[n]) != Presented(Log(Exec(INIT, a), r)[i])
  {
    LoggedPrefix(a, b, r);
    LogsGrow(a, b, r);
    RevokedTokenIsDead(Log(Exec(INIT, a + b), r), i, n);
  }

  /** An admitted command that ends is quarantined, its lock held and nothing
      written, exactly when it failed and may have had an effect nobody knows of. */
  lemma QuarantinedIff(es: seq<Event>, p: Pid, result: Option<Failure>, stored: bool)
    requires p in Exec(INIT, es).procs && Exec(INIT, es).procs[p].phase.Active?
    ensures
      var w, w' := Exec(INIT, es), Exec(INIT, es + [Act(p, Complete(result, stored))]);
      var name, unsettled := w.procs[p].phase.op.name, w.procs[p].unsettled;
      && p in w'.procs
      && (w'.procs[p].phase.Quarantined?
          <==> result.Some? && MayHaveActed(result.value, name.changesDevice, unsettled))
      && (w'.procs[p].phase.Quarantined? ==> w'.journals == w.journals && w'.locks == w.locks)
  {
    hide Exec, OutcomeUncertain, MayHaveActed, HoldsLock;
    var w := Exec(INIT, es);
    assert Exec(INIT, es + [Act(p, Complete(result, stored))]) == CompleteStep(w, p, result, stored) by {
      OneMore(es, Act(p, Complete(result, stored)));
    }
    if result.Some? {
      UncertainIff(result.value, w.procs[p].phase.op.name.changesDevice, w.procs[p].unsettled);
    }
  }

  lemma OneMore(es: seq<Event>, e: Event)
    ensures Exec(INIT, es + [e]) == Next(Exec(INIT, es), e)
  {
    assert (es + [e])[..|es|] == es;
  }
}
