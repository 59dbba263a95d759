/** What every legal run of journal commands guarantees. */
module JournalHistory {
  import opened Basics
  import opened Journal

  lemma {:induction false} PrefixLegal(ops: seq<Op>, n: nat)
    requires LegalRun(ops) && n <= |ops|
    ensures LegalRun(ops[..n])
    decreases |ops|
  {
    if n == |ops| {
      assert ops[..n] == ops;
    } else {
      PrefixLegal(ops[..|ops| - 1], n);
      assert ops[..|ops| - 1][..n] == ops[..n];
    }
  }

  /** The journal just before command `n`. */
  function Before(ops: seq<Op>, n: nat): State
    requires LegalRun(ops) && n <= |ops|
  {
    PrefixLegal(ops, n);
    Replay(ops[..n])
  }

  lemma StepAt(ops: seq<Op>, n: nat)
    requires LegalRun(ops) && n < |ops|
    ensures Legal(Before(ops, n), ops[n]) && FreshIn(ops[n], ops[..n])
    ensures Before(ops, n + 1) == Apply(Before(ops, n), ops[n])
  {
    PrefixLegal(ops, n + 1);
    assert ops[..n + 1][..n] == ops[..n];
  }

  // ---- the verdict on a failure ------------------------------------------

  /** The outermost cause that carries a diagnostic is the `i`th. */
  predicate FirstAt(f: Failure, i: nat) {
    i < |f| && f[i].Diagnostic? && forall k :: 0 <= k < i ==> !f[k].Diagnostic?
  }

  /** A diagnostic that says of itself that the outcome is open: an interrupted test
      command, an unknown verification, or a runner not known to have never started. */
  predicate SaysOpen(c: Cause) {
    c.Diagnostic? && (c.code.TestInterrupted? || c.code.VerificationUnknown?
                      || (c.code.RunnerFailed? && !c.runnerNeverStarted))
  }

  predicate SaysNothing(c: Cause) {
    c.Diagnostic? && (c.code.AdbTimeout? || c.code.OtherCode?)
  }

  /** An explicit unknown, or an ADB call that timed out after it had started. */
  predicate LeavesOpen(c: Cause) {
    c == OutcomeUnknown || (c.Diagnostic? && c.code == AdbTimeout && !c.waitingForWorker)
  }

  /** The failed command may have had an effect nobody knows of: its first
      diagnostic says so, or says nothing and a device-changing command has a
      mutation unanswered or a cause that leaves one open. */
  predicate MayHaveActed(f: Failure, changesDevice: bool, unsettled: nat) {
    || (exists i :: 0 <= i < |f| && FirstAt(f, i) && SaysOpen(f[i]))
    || (&& (forall i :: 0 <= i < |f| && FirstAt(f, i) ==> SaysNothing(f[i]))
        && changesDevice && (unsettled > 0 || exists i :: 0 <= i < |f| && LeavesOpen(f[i])))
  }

  lemma {:induction false} FirstIsFound(f: Failure)
    ensures FirstDiagnostic(f).None? ==> forall i :: 0 <= i < |f| ==> !f[i].Diagnostic?
    ensures FirstDiagnostic(f).Some? ==>
      exists i :: 0 <= i < |f| && FirstAt(f, i) && f[i] == FirstDiagnostic(f).value
  {
    if f != [] && !f[0].Diagnostic? {
      FirstIsFound(f[1..]);
      if FirstDiagnostic(f).Some? {
        var i :| 0 <= i < |f[1..]| && FirstAt(f[1..], i) && f[1..][i] == FirstDiagnostic(f).value;
        forall k | 0 <= k < i + 1 ensures !f[k].Diagnostic? {
          assert k > 0 ==> f[k] == f[1..][k - 1];
        }
        assert FirstAt(f, i + 1) && f[i + 1] == FirstDiagnostic(f).value;
      } else {
        assert forall i :: 0 < i < |f| ==> f[i] == f[1..][i - 1];
      }
    } else if f != [] {
      assert FirstAt(f, 0);
    }
  }

  lemma OneFirst(f: Failure, i: nat, j: nat)
    requires FirstAt(f, i) && FirstAt(f, j)
    ensures i == j
  {
  }

  lemma EvidenceIff(f: Failure)
    ensures DeliveryUnknown(f) <==> exists i :: 0 <= i < |f| && LeavesOpen(f[i])
  {
    assert forall c: Cause :: IsEvidence(c) <==> LeavesOpen(c);
  }

  lemma VerdictOfFirst(f: Failure, i: nat, changesDevice: bool, unsettled: nat)
    requires FirstAt(f, i) && FirstDiagnostic(f) == Some(f[i])
    ensures OutcomeUncertain(f, changesDevice, unsettled) <==> MayHaveActed(f, changesDevice, unsettled)
  {
    hide DeliveryUnknown, FirstDiagnostic, LeavesOpen;
    EvidenceIff(f);
    forall j | 0 <= j < |f| && FirstAt(f, j) ensures j == i {
      OneFirst(f, i, j);
    }
    assert SaysOpen(f[i]) ==> MayHaveActed(f, changesDevice, unsettled);
    assert !SaysOpen(f[i]) && !SaysNothing(f[i]) ==> !MayHaveActed(f, changesDevice, unsettled);
  }

  /** The verdict of the code is that of the definition above. */
  lemma UncertainIff(f: Failure, changesDevice: bool, unsettled: nat)
    ensures OutcomeUncertain(f, changesDevice, unsettled) <==> MayHaveActed(f, changesDevice, unsettled)
  {
    hide DeliveryUnknown, FirstDiagnostic, LeavesOpen;
    FirstIsFound(f);
    if FirstDiagnostic(f).Some? {
      var i :| 0 <= i < |f| && FirstAt(f, i) && f[i] == FirstDiagnostic(f).value;
      VerdictOfFirst(f, i, changesDevice, unsettled);
    } else {
      EvidenceIff(f);
    }
  }

  // ---- error evidence -----------------------------------------------------

  /** Wrapping an error in context that carries no evidence changes no verdict. */
  lemma {:induction false} ContextIsNoEvidence(context: Failure, f: Failure, changesDevice: bool, unsettled: nat)
    requires forall i :: 0 <= i < |context| ==> context[i].OtherCause?
    ensures OutcomeUncertain(context + f, changesDevice, unsettled) <==> OutcomeUncertain(f, changesDevice, unsettled)
  {
    SameDiagnostic(context, f);
    SameDelivery(context, f);
  }

  lemma {:induction false} SameDiagnostic(context: Failure, f: Failure)
    requires forall i :: 0 <= i < |context| ==> context[i].OtherCause?
    ensures FirstDiagnostic(context + f) == FirstDiagnostic(f)
  {
    if context == [] {
      assert context + f == f;
    } else {
      assert (context + f)[1..] == context[1..] + f;
      SameDiagnostic(context[1..], f);
    }
  }

  lemma SameDelivery(context: Failure, f: Failure)
    requires forall i :: 0 <= i < |context| ==> context[i].OtherCause?
    ensures DeliveryUnknown(context + f) <==> DeliveryUnknown(f)
  {
    if DeliveryUnknown(f) {
      var i :| 0 <= i < |f| && IsEvidence(f[i]);
      assert (context + f)[|context| + i] == f[i];
    }
    if DeliveryUnknown(context + f) {
      var all := context + f;
      var i :| 0 <= i < |all| && IsEvidence(all[i]);
      assert i >= |context| && f[i - |context|] == all[i];
    }
  }

  /** A command that changes nothing on the device is never quarantined by a
      transport failure, only by a verdict that names the unknown outcome. */
  lemma ReadersAreNotQuarantined(f: Failure, unsettled: nat)
    requires forall i :: 0 <= i < |f| && f[i].Diagnostic? ==> f[i].code.AdbTimeout? || f[i].code.OtherCode?
    ensures !OutcomeUncertain(f, false, unsettled)
    ensures OutcomeUncertain(f, true, unsettled) <==> unsettled > 0 || DeliveryUnknown(f)
  {
    FirstDiagnosticIsIn(f);
  }

  lemma {:induction false} FirstDiagnosticIsIn(f: Failure)
    ensures FirstDiagnostic(f).Some? ==> FirstDiagnostic(f).value in f && FirstDiagnostic(f).value.Diagnostic?
  {
    if f != [] && !f[0].Diagnostic? {
      FirstDiagnosticIsIn(f[1..]);
    }
  }

  // ---- quarantine -------------------------------------------------------

  /** The only commands that may take request `q` of owner `o` out of the journal. */
  predicate Settles(op: Op, q: InFlight, o: Owner) {
    || (op.Finish? && op.pid == q.pid
        && (op.result.Some? ==> !MayHaveActed(op.result.value, q.command.changesDevice, op.unsettled)))
    || (op.ReleaseEarly? && op.pid == q.pid && op.unsettled == 0)
    || (op.Recover? && op.token == Some(o.token) && op.boot != q.boot)
  }

  predicate HeldBy(s: State, q: InFlight, token: Token, generation: nat) {
    s.inFlight == Some(q) && s.owner.Some? && s.owner.value.token == token && s.generation == generation
  }

  lemma FinishIsSettled(s: State, op: Op)
    requires Legal(s, op) && op.Finish?
    ensures op.result.Some? ==> !MayHaveActed(op.result.value, s.inFlight.value.command.changesDevice, op.unsettled)
  {
    hide OutcomeUncertain, MayHaveActed;
    if op.result.Some? {
      UncertainIff(op.result.value, op.changesDevice, op.unsettled);
    }
  }

  /** An interrupted request of a reserved device stays, with its owner and
      generation, until its own process settles it or its owner recovers it. */
  lemma {:induction false} Quarantine(ops: seq<Op>, i: nat, j: nat)
    requires LegalRun(ops) && i <= j <= |ops|
    requires Before(ops, i).owner.Some? && Before(ops, i).inFlight.Some?
    ensures
      var o, q := Before(ops, i).owner.value, Before(ops, i).inFlight.value;
      var g := Before(ops, i).generation;
      || HeldBy(Before(ops, j), q, o.token, g)
      || exists k :: i <= k < j && HeldBy(Before(ops, k), q, o.token, g) && Settles(ops[k], q, o)
           && Before(ops, k + 1).owner.Some? && Before(ops, k + 1).owner.value.token == o.token
           && Before(ops, k + 1).generation == g
    decreases j
  {
    hide MayHaveActed, OutcomeUncertain;
    if i < j {
      Quarantine(ops, i, j - 1);
      StepAt(ops, j - 1);
      if ops[j - 1].Finish? {
        FinishIsSettled(Before(ops, j - 1), ops[j - 1]);
      }
    }
  }

  /** A cleanup that ends beside a quarantined request records only how it ended,
      and only when that is known. */
  lemma CleanupIsCertain(ops: seq<Op>, n: nat)
    requires LegalRun(ops) && n < |ops| && ops[n].FinishCleanup?
    ensures
      var s, op := Before(ops, n), ops[n];
      && s.owner.Some? && s.inFlight.Some?
      && Before(ops, n + 1) == s.(lastCleanup := Some(op.result.None?))
      && (op.result.Some? ==> !MayHaveActed(op.result.value, op.changesDevice, op.unsettled))
  {
    hide OutcomeUncertain, MayHaveActed;
    StepAt(ops, n);
    if ops[n].result.Some? {
      UncertainIff(ops[n].result.value, ops[n].changesDevice, ops[n].unsettled);
    }
  }

  /** A request in flight was admitted, and has been in the journal ever since. */
  lemma {:induction false} EntryIsLogged(ops: seq<Op>, n: nat) returns (m: nat)
    requires LegalRun(ops) && n <= |ops| && Before(ops, n).inFlight.Some?
    ensures m < n && ops[m].Admit? && Before(ops, n).inFlight == Some(ops[m].request)
    ensures forall k :: m < k <= n ==> Before(ops, k).inFlight == Before(ops, n).inFlight
    decreases n
  {
    StepAt(ops, n - 1);
    if Before(ops, n - 1).inFlight == Before(ops, n).inFlight {
      m := EntryIsLogged(ops, n - 1);
    } else {
      m := n - 1;
    }
  }

  // ---- generations and tokens ------------------------------------------

  lemma {:induction false} OwnerGeneration(ops: seq<Op>)
    requires LegalRun(ops)
    ensures Replay(ops).owner.Some? ==> Replay(ops).owner.value.generation == Replay(ops).generation
    decreases |ops|
  {
    if ops != [] {
      OwnerGeneration(ops[..|ops| - 1]);
    }
  }

  /** Command `k` issued `token`, which stayed the owner's up to command `n`. */
  predicate LastIssuedAt(ops: seq<Op>, k: nat, n: nat, token: Token)
    requires n <= |ops|
  {
    && k < n && Issued(ops[k]) == Some(token)
    && forall m :: k < m < n ==> Issued(ops[m]).None? && !ops[m].Close?
  }

  /** An owner holds the token issued last, with no close since. */
  lemma {:induction false} OwnerWasIssued(ops: seq<Op>, n: nat) returns (k: nat)
    requires LegalRun(ops) && n <= |ops| && Before(ops, n).owner.Some?
    ensures LastIssuedAt(ops, k, n, Before(ops, n).owner.value.token)
    decreases n
  {
    StepAt(ops, n - 1);
    if Issued(ops[n - 1]).None? {
      k := OwnerWasIssued(ops, n - 1);
    } else {
      k := n - 1;
    }
  }

  /** After a handoff or close under a token, no command presenting it commits. */
  lemma RevokedTokenIsDead(ops: seq<Op>, i: nat, n: nat)
    requires LegalRun(ops) && i < n < |ops|
    requires (ops[i].Handoff? || ops[i].Close?) && Presented(ops[i]).Some?
    ensures Presented(ops[n]) != Presented(ops[i])
  {
    StepAt(ops, n);
    StepAt(ops, i);
    if Presented(ops[n]) == Presented(ops[i]) {
      var k := OwnerWasIssued(ops, n);
      var k' := OwnerWasIssued(ops, i);
      if k' < k {
        TokensAreIssuedOnce(ops, k', k);
      }
    }
  }

  lemma TokensAreIssuedOnce(ops: seq<Op>, i: nat, j: nat)
    requires LegalRun(ops) && i < j < |ops| && Issued(ops[i]).Some?
    ensures Issued(ops[i]) != Issued(ops[j])
  {
    StepAt(ops, j);
    assert ops[..j][i] == ops[i];
  }

  predicate NoSessionChange(ops: seq<Op>, k: nat, n: nat)
    requires n <= |ops|
  {
    forall m :: k < m < n ==> !(ops[m].Open? || ops[m].Handoff? || ops[m].Close? || ops[m].Recover?)
  }

  lemma {:induction false} ObservedSince(ops: seq<Op>, n: nat) returns (k: nat)
    requires LegalRun(ops) && n <= |ops|
    requires Before(ops, n).owner.Some? && !Before(ops, n).owner.value.needsObservation
    ensures k < n && NoSessionChange(ops, k, n)
    ensures ops[k] == Observe(Some(Before(ops, n).owner.value.token), Before(ops, n).owner.value.boot)
    decreases n
  {
    StepAt(ops, n - 1);
    if ops[n - 1].Observe? {
      k := n - 1;
    } else {
      k := ObservedSince(ops, n - 1);
    }
  }

  /** A driver command under a session token follows an observation made with
      the same token at the same boot, after the token's issue, with no session
      change in between. */
  lemma ObserveBeforeDrive(ops: seq<Op>, n: nat) returns (i: nat, k: nat)
    requires LegalRun(ops) && n < |ops|
    requires ops[n].Admit? && ops[n].token.Some?
    requires !JoinsQuarantine(Before(ops, n), ops[n].request.command.path)
    ensures i < k < n && Issued(ops[i]) == ops[n].token
    ensures ops[k] == Observe(ops[n].token, ops[n].request.boot)
    ensures NoSessionChange(ops, k, n)
  {
    StepAt(ops, n);
    k := ObservedSince(ops, n);
    StepAt(ops, k);
    i := OwnerWasIssued(ops, k);
  }
}
