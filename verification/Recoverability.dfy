/**
 The way back to a driver.  `Own` are the steps one authority can bring about by
 itself: those of its own commands, reboots, disconnecting the device, crashes
 of its own processes, and a service ending under an admitted command of its
 own that stops it.  Unless `Blocked`, such steps lead from every reachable
 world to an admitted driver; module `Lockout` shows that nothing else does.
 */
module Recoverability {
  import opened Basics
  import opened Journal
  import opened Protocol
  import opened Refinement
  import opened Exclusion
  import opened BootOrder
  import opened Guarantees

  // ---- what a root can bring about ----------------------------------------------

  /** The command that stops a service. */
  function Stopper(s: Service): Path {
    match s
    case Proxy => NetStop
    case Recorder => VideoStop
  }

  predicate StopsService(w: World, p: Pid, r: Root, s: Service) {
    p in w.procs && w.procs[p].root == r && w.procs[p].phase.Active? && w.procs[p].phase.op.name.path == Stopper(s)
  }

  ghost predicate Own(w: World, e: Event, r: Root) {
    match e
    case Begin(_, root, _) => root == r
    case Act(p, _) => p in w.procs ==> w.procs[p].root == r
    case Reboot => true
    case ServiceStarts(_) => true
    case ServiceStops(s) => exists p :: StopsService(w, p, r, s)
  }

  ghost predicate AllOwn(w: World, es: seq<Event>, r: Root) {
    es != [] ==> AllOwn(w, es[..|es| - 1], r) && Own(Exec(w, es[..|es| - 1]), es[|es| - 1], r)
  }

  /** Process `p` of root `r` is admitted with the command `name` to an answering device. */
  predicate Drives(w: World, p: Pid, r: Root, name: CommandName) {
    && p in w.procs && w.procs[p].root == r && w.procs[p].phase.Active?
    && var op := w.procs[p].phase.op; op.name == name && op.online && !op.recoveryCleanup
  }

  ghost predicate Recoverable(w: World, r: Root, name: CommandName) {
    exists es, p :: AllOwn(w, es, r) && Drives(Exec(w, es), p, r, name)
  }

  lemma {:induction false} OwnConcat(w: World, a: seq<Event>, b: seq<Event>, r: Root)
    requires AllOwn(w, a, r) && AllOwn(Exec(w, a), b, r)
    ensures AllOwn(w, a + b, r)
    decreases |b|
  {
    if b == [] {
      assert a + b == a;
    } else {
      var b' := b[..|b| - 1];
      OwnConcat(w, a, b', r);
      ExecConcat(w, a, b');
      assert (a + b)[..|a + b| - 1] == a + b';
    }
  }

  lemma OneOwn(w: World, e: Event, r: Root)
    requires Own(w, e, r)
    ensures AllOwn(w, [e], r)
  {
    assert [e][..0] == [] && [e][0] == e;
    assert Exec(w, [e][..0]) == w;
  }

  /** `es` leads from `w` to `w'` by steps that `r` can bring about. */
  ghost predicate Leads(w: World, es: seq<Event>, w': World, r: Root) {
    AllOwn(w, es, r) && w' == Exec(w, es) && Inv(w')
  }

  lemma LeadsOn(w: World, a: seq<Event>, w1: World, b: seq<Event>, w2: World, r: Root)
    requires Leads(w, a, w1, r) && Leads(w1, b, w2, r)
    ensures Leads(w, a + b, w2, r)
  {
    hide AllOwn, Exec, Inv;
    OwnConcat(w, a, b, r);
    ExecConcat(w, a, b);
  }

  lemma StandsStill(w: World, r: Root)
    requires Inv(w)
    ensures Leads(w, [], w, r)
  {
  }

  // ---- commands run without interference ------------------------------------------

  lemma ExecOne(w: World, e: Event)
    ensures Exec(w, [e]) == Next(w, e)
  {
    hide Next;
    assert [e][..0] == [];
  }

  lemma ExecTwo(w: World, a: Event, b: Event)
    ensures Exec(w, [a, b]) == Next(Next(w, a), b)
  {
    hide Next;
    ExecOne(w, a);
    assert [a, b][..1] == [a];
  }

  lemma ExecThree(w: World, a: Event, b: Event, c: Event)
    ensures Exec(w, [a, b, c]) == Next(Next(Next(w, a), b), c)
  {
    hide Next;
    assert [a, b, c][..2] == [a, b];
    ExecTwo(w, a, b);
  }

  lemma ExecFour(w: World, a: Event, b: Event, c: Event, d: Event)
    ensures Exec(w, [a, b, c, d]) == Next(Next(Next(Next(w, a), b), c), d)
  {
    hide Next;
    assert [a, b, c, d][..3] == [a, b, c];
    ExecThree(w, a, b, c);
  }

  lemma ExecFive(w: World, a: Event, b: Event, c: Event, d: Event, e: Event)
    ensures Exec(w, [a, b, c, d, e]) == Next(Next(Next(Next(Next(w, a), b), c), d), e)
  {
    hide Next;
    assert [a, b, c, d, e][..4] == [a, b, c, d];
    ExecFour(w, a, b, c, d);
  }

  /** `es` starts process `p` for root `r` and takes steps of it, in some order. */
  predicate StepsOf(es: seq<Event>, p: Pid, r: Root) {
    forall i :: 0 <= i < |es| ==> (es[i].Begin? && es[i].p == p && es[i].root == r) || (es[i].Act? && es[i].p == p)
  }

  lemma RootsStay(w: World, e: Event, p: Pid)
    requires Inv(w) && p in w.procs
    ensures p in Next(w, e).procs && Next(w, e).procs[p].root == w.procs[p].root
  {
    hide ActStep;
    if e.Act? && e.p in w.procs {
      assert Known(w, e.p);
      var op := ActShape(w, e.p, e.action);
    }
  }

  lemma BegunRoot(w: World, p: Pid, r: Root, cmd: Command)
    requires p !in w.procs
    ensures p in BeginStep(w, p, r, cmd).procs ==> BeginStep(w, p, r, cmd).procs[p].root == r
  {
  }

  lemma {:induction false} StepsAreOwn(w: World, es: seq<Event>, p: Pid, r: Root)
    requires Inv(w) && StepsOf(es, p, r) && (p in w.procs ==> w.procs[p].root == r)
    ensures Leads(w, es, Exec(w, es), r)
    ensures p in Exec(w, es).procs ==> Exec(w, es).procs[p].root == r
  {
    hide Inv, Next;
    if es != [] {
      var prior, e := es[..|es| - 1], es[|es| - 1];
      StepsAreOwn(w, prior, p, r);
      var w1 := Exec(w, prior);
      StepInv(w1, e);
      OwnStepRoot(w1, e, p, r);
    }
  }

  lemma OwnStepRoot(w: World, e: Event, p: Pid, r: Root)
    requires Inv(w) && (p in w.procs ==> w.procs[p].root == r)
    requires (e.Begin? && e.p == p && e.root == r) || (e.Act? && e.p == p)
    ensures Own(w, e, r) && (p in Next(w, e).procs ==> Next(w, e).procs[p].root == r)
  {
    hide Inv, BeginStep, ActStep;
    if p in w.procs {
      RootsStay(w, e, p);
    } else if e.Begin? {
      BegunRoot(w, p, r, e.cmd);
    }
  }

  predicate MarkerFree(w: World, r: Root) {
    w.anchor == Bound(r) || w.anchor.Absent? || Abandoned(w.anchor, w.boot)
  }

  /** Process `p` of root `r` came and left no lock, no reboot and no service behind. */
  predicate Passed(w: World, w': World, p: Pid, r: Root) {
    && w'.procs.Keys == w.procs.Keys + {p} && w'.locks == w.locks
    && w'.boot == w.boot && w'.services == w.services
    && (MarkerFree(w, r) ==> MarkerFree(w', r))
  }

  /** The owner's token, or none without an owner. */
  function Credential(j: State): Option<Token> {
    if j.owner.Some? then Some(j.owner.value.token) else None
  }

  // ---- drivers ------------------------------------------------------------------------

  function DriverEvents(p: Pid, r: Root, token: Option<Token>, name: CommandName): seq<Event> {
    [Begin(p, r, Drive(token, name)), Act(p, ProbeBoot(true)), Act(p, Claim(Delivered)), Act(p, Commit(true))]
  }

  predicate WouldAdmit(w: World, r: Root, token: Option<Token>, name: CommandName) {
    var c := ClearStale(Disk(w, r));
    && VerifyOwner(c, token)
    && (JoinsQuarantine(c, name.path) || (c.inFlight.None? && MayDrive(c, At(w.boot))))
  }

  /** The driver has read the journal and the boot identity, and holds the lock. */
  lemma DriverEnters(w: World, p: Pid, r: Root, token: Option<Token>, name: CommandName) returns (w2: World)
    requires p !in w.procs && r !in w.locks && IndexAllows(w, r) && WouldAdmit(w, r, token, name)
    ensures w2 == Next(Next(w, Begin(p, r, Drive(token, name))), Act(p, ProbeBoot(true)))
    ensures w2 == w.(procs := w.procs[p := Process(r, Probed(Drive(token, name), ClearStale(Disk(w, r)), At(w.boot)), 0)],
                     locks := w.locks[r := p])
  {
    var cmd := Drive(token, name);
    var w1 := Next(w, Begin(p, r, cmd));
    assert w1 == w.(procs := w.procs[p := Process(r, Entered(cmd, ClearStale(Disk(w, r))), 0)], locks := w.locks[r := p]);
    w2 := Next(w1, Act(p, ProbeBoot(true)));
    assert AfterProbe(w1, r, Entered(cmd, ClearStale(Disk(w, r))), true)
        == Some(Probed(cmd, ClearStale(Disk(w, r)), At(w.boot)));
    assert w1.procs[p := w2.procs[p]] == w.procs[p := w2.procs[p]];
  }

  lemma DriverClaims(w2: World, p: Pid) returns (w3: World)
    requires p in w2.procs && w2.procs[p].phase.Probed? && w2.procs[p].phase.cmd.Drive?
    requires MarkerFree(w2, w2.procs[p].root)
    ensures w3 == Next(w2, Act(p, Claim(Delivered)))
    ensures w3 == w2.(procs := w2.procs[p := w2.procs[p].(phase :=
        Ready(w2.procs[p].phase.cmd, w2.procs[p].phase.state, w2.procs[p].phase.boot, true))], anchor := w3.anchor)
    ensures w3.anchor == if WantsClaim(w2.procs[p].phase) then Bound(w2.procs[p].root) else w2.anchor
  {
    w3 := Next(w2, Act(p, Claim(Delivered)));
  }

  lemma DriverCommits(w3: World, p: Pid) returns (w': World)
    requires p in w3.procs && w3.procs[p].phase.Ready? && w3.procs[p].phase.cmd.Drive?
    requires w3.procs[p].phase.state.inFlight.Some? || MayDrive(w3.procs[p].phase.state, w3.procs[p].phase.boot)
    ensures w' == Next(w3, Act(p, Commit(true))) && DeviceKept(w3, w')
    ensures
      var q := w3.procs[p];
      var s, name, online := q.phase.state, q.phase.cmd.name, q.phase.online;
      var s' := if s.inFlight.Some? then s else s.(inFlight := Some(InFlight(w3.nextId, name, p, q.phase.boot)));
      && w'.journals == w3.journals[q.root := s'] && w'.locks == w3.locks
      && w'.logs == w3.logs[q.root := Log(w3, q.root)
           + [Admit(q.phase.cmd.token, InFlight(w3.nextId, name, p, q.phase.boot), w3.boot, online)]]
      && w'.procs == w3.procs[p := Process(q.root, Active(Operation(
           s.owner.None? && name.changesDevice && online, name, online, s.inFlight.Some?, s')), 0)]
  {
    w' := Next(w3, Act(p, Commit(true)));
  }

  /** A driver that meets no obstacle is admitted. */
  lemma DriverRuns(w: World, p: Pid, r: Root, token: Option<Token>, name: CommandName) returns (w': World)
    requires p !in w.procs && r !in w.locks && IndexAllows(w, r) && MarkerFree(w, r)
    requires WouldAdmit(w, r, token, name)
    ensures w' == Exec(w, DriverEvents(p, r, token, name))
    ensures
      var c := ClearStale(Disk(w, r));
      var s' := if c.inFlight.Some? then c else c.(inFlight := Some(InFlight(w.nextId, name, p, At(w.boot))));
      && w'.procs == w.procs[p := Process(r, Active(Operation(
           c.owner.None? && name.changesDevice, name, true, c.inFlight.Some?, s')), 0)]
      && w'.locks == w.locks[r := p] && w'.journals == w.journals[r := s']
      && w'.boot == w.boot && w'.index == w.index && w'.services == w.services
      && w'.anchor == (if c.owner.Some? || name.changesDevice then Bound(r) else w.anchor)
  {
    hide Exec, Next, Abandoned;
    ExecFour(w, Begin(p, r, Drive(token, name)), Act(p, ProbeBoot(true)), Act(p, Claim(Delivered)), Act(p, Commit(true)));
    var w2 := DriverEnters(w, p, r, token, name);
    var w3 := DriverClaims(w2, p);
    w' := DriverCommits(w3, p);
  }

  lemma DriverLeads(w: World, p: Pid, r: Root, name: CommandName) returns (es: seq<Event>)
    requires Inv(w) && p !in w.procs && r !in w.locks && IndexAllows(w, r) && MarkerFree(w, r)
    requires ClearStale(Disk(w, r)).inFlight.None? && MayDrive(Disk(w, r), At(w.boot))
    ensures AllOwn(w, es, r) && Drives(Exec(w, es), p, r, name)
  {
    hide Exec, Inv, AllOwn, IndexAllows, MarkerFree;
    es := DriverEvents(p, r, Credential(Disk(w, r)), name);
    var w' := DriverRuns(w, p, r, Credential(Disk(w, r)), name);
    StepsAreOwn(w, es, p, r);
  }

  // ---- session commands ------------------------------------------------------------

  /** A session command has read the journal and the boot identity, and holds the lock. */
  lemma SessionEnters(w: World, p: Pid, r: Root, cmd: Command) returns (w2: World)
    requires p !in w.procs && r !in w.locks && (cmd.ObserveSession? || cmd.RecoverSession?)
    requires JournalAllows(Disk(w, r), cmd)
    ensures w2 == Next(Next(w, Begin(p, r, cmd)), Act(p, ProbeBoot(true)))
    ensures w2 == w.(procs := w.procs[p := Process(r, Ready(cmd, Disk(w, r), At(w.boot), true), 0)],
                     locks := w.locks[r := p])
  {
    hide JournalAllows;
    var w1 := Next(w, Begin(p, r, cmd));
    assert w1 == w.(procs := w.procs[p := Process(r, Entered(cmd, Disk(w, r)), 0)], locks := w.locks[r := p]);
    w2 := Next(w1, Act(p, ProbeBoot(true)));
    assert w1.procs[p := w2.procs[p]] == w.procs[p := w2.procs[p]];
  }

  lemma ObserverCommits(w2: World, p: Pid)
    requires p in w2.procs && w2.procs[p].phase.Ready? && w2.procs[p].phase.cmd.ObserveSession?
    requires Disk(w2, w2.procs[p].root).owner.Some?
    requires w2.procs[p].phase.cmd.token == Some(Disk(w2, w2.procs[p].root).owner.value.token)
    requires w2.procs[p].phase.boot == Disk(w2, w2.procs[p].root).owner.value.boot
    ensures
      var w', r := Next(w2, Act(p, Commit(true))), w2.procs[p].root;
      var o := Disk(w2, r).owner.value;
      && DeviceKept(w2, w') && w'.locks == w2.locks - {r}
      && w'.procs == w2.procs[p := w2.procs[p].(phase := Exited)]
      && Disk(w', r) == Disk(w2, r).(owner := Some(o.(needsObservation := false)))
  {
  }

  function ObserveEvents(p: Pid, r: Root, token: Option<Token>): seq<Event> {
    [Begin(p, r, ObserveSession(token)), Act(p, ProbeBoot(true)), Act(p, Commit(true))]
  }

  lemma ObserveRuns(w: World, p: Pid, r: Root) returns (w': World)
    requires p !in w.procs && r !in w.locks
    requires Disk(w, r).owner.Some? && Disk(w, r).owner.value.boot == At(w.boot)
    ensures w' == Exec(w, ObserveEvents(p, r, Credential(Disk(w, r))))
    ensures Passed(w, w', p, r) && w'.anchor == w.anchor && w'.index == w.index
    ensures Disk(w', r) == Disk(w, r).(owner := Some(Disk(w, r).owner.value.(needsObservation := false)))
  {
    hide Exec;
    var cmd := ObserveSession(Credential(Disk(w, r)));
    ExecThree(w, Begin(p, r, cmd), Act(p, ProbeBoot(true)), Act(p, Commit(true)));
    var w2 := SessionEnters(w, p, r, cmd);
    ObserverCommits(w2, p);
    w' := Next(w2, Act(p, Commit(true)));
    hide BeginStep, ProbeStep, CommitStep;
  }

  function RecoverEvents(p: Pid, r: Root, token: Option<Token>): seq<Event> {
    [Begin(p, r, RecoverSession(token)), Act(p, ProbeBoot(true)), Act(p, Commit(true)), Act(p, Release(Delivered))]
  }

  lemma RecovererCommits(w2: World, p: Pid) returns (w3: World)
    requires p in w2.procs && w2.procs[p].phase.Ready? && w2.procs[p].phase.cmd.RecoverSession?
    requires var s := w2.procs[p].phase.state; s.inFlight.Some? && s.inFlight.value.boot != w2.procs[p].phase.boot
    requires w2.services == {}
    ensures w3 == Next(w2, Act(p, Commit(true))) && DeviceKept(w2, w3)
    ensures
      var r, s, boot := w2.procs[p].root, w2.procs[p].phase.state, w2.procs[p].phase.boot;
      && w3.procs == w2.procs[p := w2.procs[p].(phase := if s.owner.Some? then Exited else Releasing)]
      && w3.locks == (if s.owner.Some? then w2.locks - {r} else w2.locks)
      && Disk(w3, r).inFlight.None? && Disk(w3, r).owner.Some? == s.owner.Some?
      && Log(w3, r) == Log(w2, r) + [Recover(w2.procs[p].phase.cmd.token, boot)]
      && (s.owner.Some? ==> Disk(w3, r).owner == Some(s.owner.value.(boot := boot, needsObservation := true)))
  {
    w3 := Next(w2, Act(p, Commit(true)));
  }

  lemma Releases(w: World, p: Pid) returns (w': World)
    requires p in w.procs && (w.procs[p].phase.Releasing? || w.procs[p].phase.Exited?)
    ensures w' == Next(w, Act(p, Release(Delivered)))
    ensures w' == w.(procs := w.procs[p := w.procs[p].(phase := Exited)], anchor := w'.anchor,
                     locks := if w.procs[p].phase.Releasing? then w.locks - {w.procs[p].root} else w.locks)
    ensures w'.anchor == if w.procs[p].phase.Releasing? && w.anchor == Bound(w.procs[p].root) then Absent else w.anchor
  {
    w' := Next(w, Act(p, Release(Delivered)));
    assert w.procs[p].phase.Exited? ==> w.procs[p := w.procs[p].(phase := Exited)] == w.procs;
  }

  /** The journal is recovered; without an owner the marker is still to be removed. */
  lemma Recovers(w: World, p: Pid, r: Root) returns (w3: World)
    requires p !in w.procs && r !in w.locks && w.services == {}
    requires Disk(w, r).inFlight.Some? && Disk(w, r).inFlight.value.boot != At(w.boot)
    ensures
      var cmd := RecoverSession(Credential(Disk(w, r)));
      w3 == Next(Next(Next(w, Begin(p, r, cmd)), Act(p, ProbeBoot(true))), Act(p, Commit(true)))
    ensures
      var owned := Disk(w, r).owner.Some?;
      && w3.procs == w.procs[p := Process(r, if owned then Exited else Releasing, 0)]
      && w3.locks == (if owned then w.locks else w.locks[r := p]) && DeviceKept(w, w3)
      && Disk(w3, r).inFlight.None? && Disk(w3, r).owner.Some? == owned
      && Log(w3, r) == Log(w, r) + [Recover(Credential(Disk(w, r)), At(w.boot))]
  {
    hide Next;
    var cmd := RecoverSession(Credential(Disk(w, r)));
    var w2 := SessionEnters(w, p, r, cmd);
    assert Disk(w2, r) == Disk(w, r) && Log(w2, r) == Log(w, r);
    w3 := RecovererCommits(w2, p);
    assert w.locks[r := p] - {r} == w.locks;
  }

  lemma RecoverRuns(w: World, p: Pid, r: Root) returns (w': World)
    requires p !in w.procs && r !in w.locks && w.services == {}
    requires Disk(w, r).inFlight.Some? && Disk(w, r).inFlight.value.boot != At(w.boot)
    ensures w' == Exec(w, RecoverEvents(p, r, Credential(Disk(w, r))))
    ensures Passed(w, w', p, r) && w'.index == w.index
    ensures w'.anchor == if Disk(w, r).owner.None? && w.anchor == Bound(r) then Absent else w.anchor
    ensures Disk(w', r).inFlight.None? && Disk(w', r).owner.Some? == Disk(w, r).owner.Some?
    ensures Log(w', r) == Log(w, r) + [Recover(Credential(Disk(w, r)), At(w.boot))]
  {
    hide Exec, Next;
    var cmd := RecoverSession(Credential(Disk(w, r)));
    ExecFour(w, Begin(p, r, cmd), Act(p, ProbeBoot(true)), Act(p, Commit(true)), Act(p, Release(Delivered)));
    var w3 := Recovers(w, p, r);
    w' := Releases(w3, p);
    SameDisk(w3, w');
    assert w'.locks == w.locks;
  }

  function CloseEvents(p: Pid, r: Root, token: Option<Token>): seq<Event> {
    [Begin(p, r, CloseSession(token)), Act(p, Commit(true)), Act(p, Unpublish), Act(p, Release(Delivered))]
  }

  lemma CloserCommits(w: World, p: Pid, r: Root) returns (w2: World)
    requires p !in w.procs && r !in w.locks && w.services == {}
    requires Disk(w, r).owner.Some? && Disk(w, r).inFlight.None?
    ensures w2 == Next(Next(w, Begin(p, r, CloseSession(Credential(Disk(w, r))))), Act(p, Commit(true)))
    ensures w2.procs == w.procs[p := Process(r, Unpublishing, 0)] && w2.locks == w.locks[r := p] && DeviceKept(w, w2)
    ensures Disk(w2, r).owner.None? && Disk(w2, r).inFlight.None?
    ensures r in w2.journals && w2.journals == w.journals[r := w2.journals[r]]
  {
    var cmd := CloseSession(Credential(Disk(w, r)));
    var w1 := Next(w, Begin(p, r, cmd));
    assert w1 == w.(procs := w.procs[p := Process(r, Entered(cmd, Disk(w, r)), 0)], locks := w.locks[r := p]);
    w2 := Next(w1, Act(p, Commit(true)));
    assert w1.procs[p := w2.procs[p]] == w.procs[p := w2.procs[p]];
  }

  lemma Unpublishes(w: World, p: Pid) returns (w': World)
    requires p in w.procs && w.procs[p].phase.Unpublishing?
    ensures w' == Next(w, Act(p, Unpublish)) && w'.journals == w.journals && w'.logs == w.logs
    ensures w'.anchor == w.anchor && w'.boot == w.boot && w'.services == w.services
    ensures w'.procs == w.procs[p := w.procs[p].(phase := w'.procs[p].phase)]
    ensures
      if IndexAllows(w, w.procs[p].root) then
        w'.procs[p].phase.Releasing? && w'.locks == w.locks && w'.index.None?
      else
        w'.procs[p].phase.Exited? && w'.locks == w.locks - {w.procs[p].root} && w'.index == w.index
  {
    w' := Next(w, Act(p, Unpublish));
  }

  lemma CloseRuns(w: World, p: Pid, r: Root) returns (w': World)
    requires p !in w.procs && r !in w.locks && w.services == {}
    requires Disk(w, r).owner.Some? && Disk(w, r).inFlight.None?
    ensures w' == Exec(w, CloseEvents(p, r, Credential(Disk(w, r))))
    ensures Passed(w, w', p, r) && Disk(w', r).owner.None? && Disk(w', r).inFlight.None?
    ensures w'.index == if IndexAllows(w, r) then None else w.index
    ensures w'.anchor == if IndexAllows(w, r) && w.anchor == Bound(r) then Absent else w.anchor
  {
    hide Exec, Next;
    var cmd := CloseSession(Credential(Disk(w, r)));
    ExecFour(w, Begin(p, r, cmd), Act(p, Commit(true)), Act(p, Unpublish), Act(p, Release(Delivered)));
    var w2 := CloserCommits(w, p, r);
    var w3 := Unpublishes(w2, p);
    w' := Releases(w3, p);
    SameDisk(w2, w');
  }

  function OpenEvents(p: Pid, r: Root): seq<Event> {
    [Begin(p, r, OpenSession), Act(p, Claim(Delivered)), Act(p, Publish), Act(p, ProbeBoot(true)), Act(p, Commit(true))]
  }

  lemma OpenerPublishes(w: World, p: Pid, r: Root) returns (w3: World)
    requires p !in w.procs && r !in w.locks && w.services == {} && MarkerFree(w, r)
    requires Disk(w, r).owner.None? && Disk(w, r).inFlight.None?
    ensures w3 == Next(Next(Next(w, Begin(p, r, OpenSession)), Act(p, Claim(Delivered))), Act(p, Publish))
    ensures w3 == w.(procs := w.procs[p := Process(r, Published(Disk(w, r)), 0)], locks := w.locks[r := p],
                     anchor := Bound(r), index := Some(r))
  {
    var w1 := Next(w, Begin(p, r, OpenSession));
    assert w1 == w.(procs := w.procs[p := Process(r, Entered(OpenSession, Disk(w, r)), 0)], locks := w.locks[r := p]);
    var w2 := Next(w1, Act(p, Claim(Delivered)));
    assert w2 == w1.(procs := w1.procs[p := Process(r, Claimed(Disk(w, r)), 0)], anchor := Bound(r));
    w3 := Next(w2, Act(p, Publish));
    assert w3.procs == w.procs[p := w3.procs[p]];
  }

  lemma OpenerCommits(w3: World, p: Pid) returns (w': World)
    requires p in w3.procs && w3.procs[p].phase.Published?
    ensures w' == Next(Next(w3, Act(p, ProbeBoot(true))), Act(p, Commit(true))) && DeviceKept(w3, w')
    ensures
      var r, s := w3.procs[p].root, w3.procs[p].phase.state;
      && w'.procs == w3.procs[p := w3.procs[p].(phase := Exited)] && w'.locks == w3.locks - {r}
      && w'.journals == w3.journals[r := NewOwner(s, w3.nextId, At(w3.boot))]
  {
    var w4 := Next(w3, Act(p, ProbeBoot(true)));
    var r, s := w3.procs[p].root, w3.procs[p].phase.state;
    assert w4 == w3.(procs := w3.procs[p := w3.procs[p].(phase := Ready(OpenSession, s, At(w3.boot), true))]);
    w' := Next(w4, Act(p, Commit(true)));
    assert w'.procs == w3.procs[p := w'.procs[p]];
  }

  lemma OpenRuns(w: World, p: Pid, r: Root) returns (w': World)
    requires p !in w.procs && r !in w.locks && w.services == {} && MarkerFree(w, r)
    requires Disk(w, r).owner.None? && Disk(w, r).inFlight.None?
    ensures w' == Exec(w, OpenEvents(p, r))
    ensures Passed(w, w', p, r) && w'.index == Some(r) && w'.anchor == Bound(r)
    ensures w'.procs == w.procs[p := Process(r, Exited, 0)]
    ensures r in w'.journals && w'.journals == w.journals[r := w'.journals[r]]
    ensures Disk(w', r).inFlight.None? && Disk(w', r).owner.Some? && Disk(w', r).owner.value.boot == At(w.boot)
  {
    hide Exec, Next;
    ExecFive(w, Begin(p, r, OpenSession), Act(p, Claim(Delivered)), Act(p, Publish), Act(p, ProbeBoot(true)),
             Act(p, Commit(true)));
    var w3 := OpenerPublishes(w, p, r);
    w' := OpenerCommits(w3, p);
  }

  // ---- stopping the services -----------------------------------------------------------

  function StopName(s: Service): CommandName {
    CommandName(Stopper(s), true)
  }

  function StopEvents(p: Pid, r: Root, token: Option<Token>, s: Service): seq<Event> {
    [Begin(p, r, Drive(token, StopName(s))), Act(p, ProbeBoot(false)), Act(p, Commit(true))]
  }

  lemma StopEnters(w: World, p: Pid, r: Root, s: Service) returns (w2: World)
    requires p !in w.procs && r !in w.locks && IndexAllows(w, r)
    ensures
      var cmd, c := Drive(Credential(Disk(w, r)), StopName(s)), ClearStale(Disk(w, r));
      && w2 == Next(Next(w, Begin(p, r, cmd)), Act(p, ProbeBoot(false)))
      && w2 == w.(procs := w.procs[p := Process(r, Ready(cmd, c, OfflineBoot(c), false), 0)], locks := w.locks[r := p])
  {
    var cmd, c := Drive(Credential(Disk(w, r)), StopName(s)), ClearStale(Disk(w, r));
    hide MayDrive, HoldsLock;
    var w1 := Next(w, Begin(p, r, cmd));
    assert w1 == w.(procs := w.procs[p := Process(r, Entered(cmd, c), 0)], locks := w.locks[r := p]);
    w2 := Next(w1, Act(p, ProbeBoot(false)));
    assert AfterProbe(w1, r, Entered(cmd, c), false) == Some(Ready(cmd, c, OfflineBoot(c), false));
    assert w1.procs[p := w2.procs[p]] == w.procs[p := w2.procs[p]];
  }

  /** A stop command against an unreachable device is checked against the session's
      own boot, so it is admitted to an owner who has observed, and it joins a
      quarantined request. */
  lemma StopIsAdmitted(w: World, p: Pid, r: Root, s: Service) returns (w': World)
    requires p !in w.procs && r !in w.locks && IndexAllows(w, r)
    requires Disk(w, r).owner.Some? ==> Disk(w, r).inFlight.Some? || !Disk(w, r).owner.value.needsObservation
    ensures w' == Exec(w, StopEvents(p, r, Credential(Disk(w, r)), s)) && DeviceKept(w, w')
    ensures w'.procs.Keys == w.procs.Keys + {p} && w'.locks == w.locks[r := p]
    ensures StopsService(w', p, r, s)
    ensures
      var op, c := w'.procs[p].phase.op, ClearStale(Disk(w, r));
      && !op.releaseAnchor && op.recoveryCleanup == c.inFlight.Some? && op.state.owner == c.owner
      && (op.recoveryCleanup ==> op.state.inFlight == c.inFlight)
    ensures
      var c, request := ClearStale(Disk(w, r)), InFlight(w.nextId, StopName(s), p, OfflineBoot(ClearStale(Disk(w, r))));
      && Log(w', r) == Log(w, r) + [Admit(Credential(Disk(w, r)), request, w.boot, false)]
      && (c.inFlight.None? ==> Disk(w', r).inFlight == Some(request))
  {
    hide Exec;
    var cmd := Drive(Credential(Disk(w, r)), StopName(s));
    ExecThree(w, Begin(p, r, cmd), Act(p, ProbeBoot(false)), Act(p, Commit(true)));
    var w2 := StopEnters(w, p, r, s);
    w' := DriverCommits(w2, p);
    hide Next;
  }

  /** The service ends and its command completes. */
  lemma StopEnds(w: World, p: Pid, r: Root, s: Service) returns (w': World)
    requires StopsService(w, p, r, s) && !w.procs[p].phase.op.releaseAnchor
    ensures w' == Next(Next(w, ServiceStops(s)), Act(p, Complete(None, true)))
    ensures w'.procs.Keys == w.procs.Keys && w'.locks == w.locks - {r} && w'.services == w.services - {s}
    ensures w'.anchor == w.anchor && w'.index == w.index && w'.boot == w.boot
    ensures var op := w.procs[p].phase.op;
      && Disk(w', r).owner == op.state.owner
      && Disk(w', r).inFlight == if op.recoveryCleanup then op.state.inFlight else None
  {
    w' := Next(Next(w, ServiceStops(s)), Act(p, Complete(None, true)));
  }

  /** The services but `s` are as before, and so are the owner and the request in flight. */
  predicate Stopped(w: World, w': World, r: Root, s: Service) {
    && w'.locks == w.locks && w'.services == w.services - {s}
    && w'.anchor == w.anchor && w'.index == w.index && w'.boot == w.boot
    && Disk(w', r).owner == Disk(w, r).owner && Disk(w', r).inFlight == Disk(w, r).inFlight
  }

  lemma StopLeads(w: World, p: Pid, r: Root, s: Service) returns (es: seq<Event>, w': World)
    requires Inv(w) && p !in w.procs && r !in w.locks && IndexAllows(w, r) && Disk(w, r).owner.Some?
    requires Disk(w, r).inFlight.Some? || !Disk(w, r).owner.value.needsObservation
    ensures Leads(w, es, w', r) && Stopped(w, w', r, s) && w'.procs.Keys == w.procs.Keys + {p}
  {
    hide Exec, Inv, Next, IndexAllows, StopEvents, AllOwn, Own;
    var begin := StopEvents(p, r, Credential(Disk(w, r)), s);
    var w1 := StopIsAdmitted(w, p, r, s);
    StepsAreOwnStop(w, begin, p, r, s);
    var w2 := Next(w1, ServiceStops(s));
    StopIsOwn(w1, p, r, s);
    w' := StopEnds(w1, p, r, s);
    var end := Act(p, Complete(None, true));
    ExecOne(w2, end);
    StepsAreOwn(w2, [end], p, r);
    LeadsOn(w1, [ServiceStops(s)], w2, [end], w', r);
    LeadsOn(w, begin, w1, [ServiceStops(s)] + [end], w', r);
    es := begin + ([ServiceStops(s)] + [end]);
    assert w'.locks == w.locks;
  }

  lemma StepsAreOwnStop(w: World, es: seq<Event>, p: Pid, r: Root, s: Service)
    requires Inv(w) && p !in w.procs && es == StopEvents(p, r, Credential(Disk(w, r)), s)
    ensures Leads(w, es, Exec(w, es), r)
  {
    hide Inv, Exec, Next, AllOwn;
    StepsAreOwn(w, es, p, r);
  }

  lemma StopIsOwn(w: World, p: Pid, r: Root, s: Service)
    requires Inv(w) && StopsService(w, p, r, s)
    ensures Leads(w, [ServiceStops(s)], Next(w, ServiceStops(s)), r)
    ensures p in Next(w, ServiceStops(s)).procs && Next(w, ServiceStops(s)).procs[p].root == r
  {
    hide Inv;
    ExecOne(w, ServiceStops(s));
    StepInv(w, ServiceStops(s));
    OneOwn(w, ServiceStops(s), r);
  }

  // ---- the way back ---------------------------------------------------------------

  /** Every process so far has a number below `n`. */
  predicate FreshFrom(w: World, n: Pid) {
    forall p :: p in w.procs ==> p < n
  }

  lemma {:induction false} FreshPid(s: set<Pid>) returns (n: Pid)
    ensures forall p :: p in s ==> p < n
  {
    if s == {} {
      n := 0;
    } else {
      var p :| p in s;
      var m := FreshPid(s - {p});
      n := if p < m then m else p + 1;
      assert forall q :: q in s ==> q == p || q in s - {p};
    }
  }

  lemma RebootLeads(w: World, r: Root)
    requires Inv(w)
    ensures Leads(w, [Reboot], w.(boot := w.boot + 1), r)
  {
    hide Inv;
    ExecOne(w, Reboot);
    StepInv(w, Reboot);
    OneOwn(w, Reboot, r);
  }

  /** No other authority holds the marker, and no claim was interrupted at this boot. */
  lemma MarkerFreesUp(w: World, r: Root)
    requires BootInv(w) && (w.anchor.Bound? ==> w.anchor.root == r)
    ensures MarkerFree(w.(boot := w.boot + 1), r)
  {
    hide Disk;
  }

  /** The request in flight, if any, is recovered. */
  lemma Settle(w: World, r: Root, n: Pid) returns (es: seq<Event>, w': World)
    requires Inv(w) && FreshFrom(w, n) && r !in w.locks && w.services == {} && MarkerFree(w, r)
    requires Disk(w, r).inFlight.Some? ==> Disk(w, r).inFlight.value.boot != At(w.boot)
    ensures Leads(w, es, w', r) && FreshFrom(w', n + 1) && r !in w'.locks && w'.services == {} && MarkerFree(w', r)
    ensures Disk(w', r).inFlight.None?
  {
    hide Exec, Inv, AllOwn, MarkerFree;
    if Disk(w, r).inFlight.Some? {
      es := RecoverEvents(n, r, Credential(Disk(w, r)));
      w' := RecoverRuns(w, n, r);
      StepsAreOwn(w, es, n, r);
    } else {
      es, w' := [], w;
      StandsStill(w, r);
    }
  }

  /** The session, if any, is closed. */
  lemma Vacate(w: World, r: Root, n: Pid) returns (es: seq<Event>, w': World)
    requires Inv(w) && FreshFrom(w, n) && r !in w.locks && w.services == {} && MarkerFree(w, r)
    requires Disk(w, r).inFlight.None?
    ensures Leads(w, es, w', r) && FreshFrom(w', n + 1) && r !in w'.locks && w'.services == {} && MarkerFree(w', r)
    ensures Disk(w', r).inFlight.None? && Disk(w', r).owner.None?
  {
    hide Exec, Inv, AllOwn, MarkerFree;
    if Disk(w, r).owner.Some? {
      es := CloseEvents(n, r, Credential(Disk(w, r)));
      w' := CloseRuns(w, n, r);
      StepsAreOwn(w, es, n, r);
    } else {
      es, w' := [], w;
      StandsStill(w, r);
    }
  }

  /** A new session is opened and observed under, and a driver is admitted. */
  lemma OpenAndDrive(w: World, r: Root, name: CommandName, n: Pid) returns (es: seq<Event>)
    requires Inv(w) && FreshFrom(w, n) && r !in w.locks && w.services == {} && MarkerFree(w, r)
    requires Disk(w, r).inFlight.None? && Disk(w, r).owner.None?
    ensures AllOwn(w, es, r) && Drives(Exec(w, es), n + 2, r, name)
  {
    hide Exec, Inv, AllOwn, OpenEvents, ObserveEvents, Drives;
    var open := OpenEvents(n, r);
    var w1 := OpenRuns(w, n, r);
    OpenIsOwn(w, n, r);
    var look := ObserveEvents(n + 1, r, Credential(Disk(w1, r)));
    var w2 := ObserveRuns(w1, n + 1, r);
    ObserveIsOwn(w1, n + 1, r);
    var drive := DriverLeads(w2, n + 2, r, name);
    LeadsOn(w, open, w1, look, w2, r);
    OwnConcat(w, open + look, drive, r);
    ExecConcat(w, open + look, drive);
    es := open + look + drive;
  }

  lemma OpenIsOwn(w: World, p: Pid, r: Root)
    requires Inv(w) && p !in w.procs
    ensures Leads(w, OpenEvents(p, r), Exec(w, OpenEvents(p, r)), r)
  {
    hide Exec, Inv, AllOwn;
    StepsAreOwn(w, OpenEvents(p, r), p, r);
  }

  lemma ObserveIsOwn(w: World, p: Pid, r: Root)
    requires Inv(w) && p !in w.procs
    ensures var es := ObserveEvents(p, r, Credential(Disk(w, r))); Leads(w, es, Exec(w, es), r)
  {
    hide Exec, Inv, AllOwn;
    StepsAreOwn(w, ObserveEvents(p, r, Credential(Disk(w, r))), p, r);
  }

  /** With the services stopped: reboot, recover, close, open, observe, drive. */
  lemma FromIdle(w: World, r: Root, name: CommandName, n: Pid) returns (es: seq<Event>)
    requires Inv(w) && BootInv(w) && FreshFrom(w, n) && r !in w.locks && w.services == {}
    requires w.anchor.Bound? ==> w.anchor.root == r
    ensures AllOwn(w, es, r) && Drives(Exec(w, es), n + 4, r, name)
  {
    hide Exec, Inv, AllOwn, MarkerFree, Drives, BootInv;
    var w1 := w.(boot := w.boot + 1);
    RebootLeads(w, r);
    MarkerFreesUp(w, r);
    RequestIsOlder(w, r);
    var heal, w2 := Settle(w1, r, n);
    var leave, w3 := Vacate(w2, r, n + 1);
    var rest := OpenAndDrive(w3, r, name, n + 2);
    LeadsOn(w, [Reboot], w1, heal, w2, r);
    LeadsOn(w, [Reboot] + heal, w2, leave, w3, r);
    OwnConcat(w, [Reboot] + heal + leave, rest, r);
    ExecConcat(w, [Reboot] + heal + leave, rest);
    es := [Reboot] + heal + leave + rest;
  }

  lemma RequestIsOlder(w: World, r: Root)
    requires BootInv(w)
    ensures var j := Disk(w.(boot := w.boot + 1), r); j.inFlight.Some? ==> j.inFlight.value.boot != At(w.boot + 1)
  {
    assert JournalBoots(Disk(w, r), w.boot);
  }

  /** Without a session the services are no obstacle. */
  lemma FromUnowned(w: World, r: Root, name: CommandName, n: Pid) returns (es: seq<Event>)
    requires Inv(w) && BootInv(w) && FreshFrom(w, n) && r !in w.locks && IndexAllows(w, r)
    requires Disk(w, r).owner.None? && (w.anchor.Bound? ==> w.anchor.root == r)
    ensures AllOwn(w, es, r) && Drives(Exec(w, es), n, r, name)
  {
    hide Exec, Inv, AllOwn, MarkerFree, Drives, BootInv;
    var w1 := w.(boot := w.boot + 1);
    RebootLeads(w, r);
    MarkerFreesUp(w, r);
    var rest := DriverLeads(w1, n, r, name);
    OwnConcat(w, [Reboot], rest, r);
    ExecConcat(w, [Reboot], rest);
    es := [Reboot] + rest;
  }

  lemma NoServiceLeft(services: set<Service>)
    ensures services - {Proxy} - {Recorder} == {}
  {
    forall s | s in services ensures s == Proxy || s == Recorder {
    }
  }

  /** An owner who may stop the services stops both. */
  lemma FromOwned(w: World, r: Root, name: CommandName, n: Pid) returns (es: seq<Event>)
    requires Inv(w) && BootInv(w) && FreshFrom(w, n) && r !in w.locks && IndexAllows(w, r)
    requires Disk(w, r).owner.Some? && (w.anchor.Bound? ==> w.anchor.root == r)
    requires Disk(w, r).inFlight.Some? || !Disk(w, r).owner.value.needsObservation
    ensures AllOwn(w, es, r) && Drives(Exec(w, es), n + 6, r, name)
  {
    hide Exec, Inv, AllOwn, Drives, BootInv;
    var first, w1 := StopLeads(w, n, r, Proxy);
    var second, w2 := StopLeads(w1, n + 1, r, Recorder);
    BootsCarry(w, first, w1, r);
    BootsCarry(w1, second, w2, r);
    NoServiceLeft(w.services);
    var rest := FromIdle(w2, r, name, n + 2);
    LeadsOn(w, first, w1, second, w2, r);
    OwnConcat(w, first + second, rest, r);
    ExecConcat(w, first + second, rest);
    es := first + second + rest;
  }

  lemma {:induction false} BootsCarryOver(w: World, es: seq<Event>)
    requires Inv(w) && BootInv(w)
    ensures Inv(Exec(w, es)) && BootInv(Exec(w, es))
  {
    hide Inv, BootInv, Next;
    if es != [] {
      BootsCarryOver(w, es[..|es| - 1]);
      StepBoots(Exec(w, es[..|es| - 1]), es[|es| - 1]);
      StepInv(Exec(w, es[..|es| - 1]), es[|es| - 1]);
    }
  }

  lemma BootsCarry(w: World, es: seq<Event>, w': World, r: Root)
    requires Inv(w) && BootInv(w) && Leads(w, es, w', r)
    ensures BootInv(w')
  {
    hide Inv, BootInv, Exec;
    BootsCarryOver(w, es);
  }

  /** An owner at the current boot observes first. */
  lemma FromCurrent(w: World, r: Root, name: CommandName, n: Pid) returns (es: seq<Event>)
    requires Inv(w) && BootInv(w) && FreshFrom(w, n) && r !in w.locks && IndexAllows(w, r)
    requires Disk(w, r).owner.Some? && (w.anchor.Bound? ==> w.anchor.root == r)
    requires Disk(w, r).owner.value.boot == At(w.boot)
    ensures AllOwn(w, es, r) && Drives(Exec(w, es), n + 7, r, name)
  {
    hide Exec, Inv, AllOwn, Drives, BootInv, ObserveEvents;
    var look := ObserveEvents(n, r, Credential(Disk(w, r)));
    var w1 := ObserveRuns(w, n, r);
    ObserveIsOwn(w, n, r);
    BootsCarry(w, look, w1, r);
    var rest := FromOwned(w1, r, name, n + 1);
    OwnConcat(w, look, rest, r);
    ExecConcat(w, look, rest);
    es := look + rest;
  }

  /** A reserved, idle device that rebooted since the session was issued or
      recovered, before anyone observed it. */
  predicate NeverObserved(w: World, j: State) {
    j.owner.Some? && j.inFlight.None? && j.owner.value.boot != At(w.boot) && j.owner.value.needsObservation
  }

  /** The marker is another authority's; or a service runs while the host index
      names another authority or the owner has nothing left that could stop it. */
  predicate Blocked(w: World, r: Root) {
    || (w.anchor.Bound? && w.anchor.root != r)
    || (w.services != {} && (!IndexAllows(w, r) || NeverObserved(w, Disk(w, r))))
  }

  lemma FromFree(w: World, r: Root, name: CommandName) returns (es: seq<Event>, p: Pid)
    requires Inv(w) && BootInv(w) && r !in w.locks && !Blocked(w, r)
    ensures AllOwn(w, es, r) && Drives(Exec(w, es), p, r, name)
  {
    hide Exec, Inv, AllOwn, Drives, BootInv, IndexAllows;
    var n := FreshPid(w.procs.Keys);
    if w.services == {} {
      es := FromIdle(w, r, name, n);
      p := n + 4;
    } else if Disk(w, r).owner.None? {
      es := FromUnowned(w, r, name, n);
      p := n;
    } else if Disk(w, r).inFlight.Some? || !Disk(w, r).owner.value.needsObservation {
      es := FromOwned(w, r, name, n);
      p := n + 6;
    } else {
      es := FromCurrent(w, r, name, n);
      p := n + 7;
    }
  }

  /** The holder of the lock of `r` may always crash. */
  lemma HolderCrashes(w: World, r: Root) returns (es: seq<Event>, w': World)
    requires Inv(w)
    ensures Leads(w, es, w', r) && r !in w'.locks && w'.journals == w.journals && w'.logs == w.logs
    ensures w'.anchor == w.anchor && w'.index == w.index && w'.boot == w.boot && w'.services == w.services
  {
    if r in w.locks {
      var p := w.locks[r];
      es, w' := [Act(p, Crash)], Next(w, Act(p, Crash));
      ExecOne(w, Act(p, Crash));
      StepsAreOwn(w, es, p, r);
    } else {
      es, w' := [], w;
      StandsStill(w, r);
    }
  }

  /** From every reachable world in which `r` is not blocked, steps of its own
      lead to any driver command it may ask for. */
  lemma NoLockout(es: seq<Event>, r: Root, name: CommandName) returns (more: seq<Event>, p: Pid)
    requires !Blocked(Exec(INIT, es), r)
    ensures AllOwn(Exec(INIT, es), more, r) && Drives(Exec(INIT, es + more), p, r, name)
  {
    hide Exec, Inv, AllOwn, Drives, BootInv;
    var w := Exec(INIT, es);
    BootsHold(es);
    var free, w1 := HolderCrashes(w, r);
    BootsCarry(w, free, w1, r);
    assert Disk(w1, r) == Disk(w, r);
    var rest;
    rest, p := FromFree(w1, r, name);
    OwnConcat(w, free, rest, r);
    ExecConcat(w, free, rest);
    more := free + rest;
    ExecConcat(INIT, es, more);
  }

  /** As long as no late marker removal hits a root that needs its marker, a root
      with an open session has neither the marker nor the index against it. */
  lemma SessionsKeepOthersOut(es: seq<Event>, r: Root)
    requires NeverCutsOff(es) && Disk(Exec(INIT, es), r).owner.Some?
    ensures IndexAllows(Exec(INIT, es), r) && Exec(INIT, es).anchor == Bound(r)
  {
    MarkerHolds(es);
    assert Depends(Exec(INIT, es), r) && NamedInIndex(Exec(INIT, es), r);
  }
}
