/**
 The worker's code as runs of the container protocol: with the environment moving between any two
 effects, and every answer of the runtime true at the moment it is given, `recover_pending`,
 `cleanup` and `validate` take the protocol's own steps. So what SandboxProtocol proves of every run
 holds of the code (src/gitops/sandbox/runner.rs).
 */
module RunnerProtocol {
  import opened Outcomes
  import opened Jobs
  import opened Runner
  import opened SandboxProtocol

  // ---- Effects and the environment between them ----

  /** What happens outside the owner. */
  predicate IsOutside(s: Step) {
    || s.LauncherExits? || s.LauncherCreates? || s.ContainerVanishes? || s.ForeignCreates?
    || s.DirectoryAppears? || s.DirectoryVanishes?
  }

  function Do(w: World, s: Step): World {
    match Apply(w, s)
    case Some(v) => v
    case None => w
  }

  /** The moves the environment makes before an effect; what cannot happen does not. */
  function Meanwhile(w: World, moves: seq<Step>): World
    decreases |moves|
  {
    if moves == [] then w else Meanwhile(if IsOutside(moves[0]) then Do(w, moves[0]) else w, moves[1..])
  }

  /** Some run of the protocol goes from one world to the other. */
  ghost predicate Leads(w: World, v: World) {
    exists steps :: Run(w, steps) == Some(v)
  }

  lemma LeadsNowhere(w: World)
    ensures Leads(w, w)
  {
    assert Run(w, []) == Some(w);
  }

  lemma LeadsOn(w: World, v: World, u: World)
    requires Leads(w, v) && Leads(v, u)
    ensures Leads(w, u)
  {
    hide Run;
    var first :| Run(w, first) == Some(v);
    var rest :| Run(v, rest) == Some(u);
    RunAppend(w, first, rest);
  }

  lemma LeadsKeepsInv(w: World, v: World)
    requires Leads(w, v)
    ensures Inv(w) ==> Inv(v)
  {
    hide Inv, Run;
    var steps :| Run(w, steps) == Some(v);
    if Inv(w) { RunKeepsInv(w, steps); }
  }

  lemma DoLeads(w: World, s: Step)
    ensures Leads(w, Do(w, s))
  {
    hide Apply;
    LeadsNowhere(w);
    if Apply(w, s).Some? {
      assert [s][1..] == [];
      assert Run(w, [s]) == Some(Do(w, s));
    }
  }

  lemma OutsideKeepsOwner(w: World, s: Step)
    requires IsOutside(s)
    ensures Do(w, s).owner == w.owner && Do(w, s).tables == w.tables && w.spawned == Do(w, s).spawned
  {
  }

  /** The environment touches neither the owner nor its tables. */
  lemma {:induction false} MeanwhileLeads(w: World, moves: seq<Step>)
    ensures var v := Meanwhile(w, moves);
            Leads(w, v) && v.owner == w.owner && v.tables == w.tables && v.spawned == w.spawned
    decreases |moves|
  {
    hide Do, Leads, IsOutside;
    if moves == [] {
      LeadsNowhere(w);
    } else if IsOutside(moves[0]) {
      var u := Do(w, moves[0]);
      DoLeads(w, moves[0]);
      OutsideKeepsOwner(w, moves[0]);
      MeanwhileLeads(u, moves[1..]);
      LeadsOn(w, u, Meanwhile(u, moves[1..]));
    } else {
      MeanwhileLeads(w, moves[1..]);
    }
  }

  /** A move of the environment, then an effect of the owner. */
  function Then(w: World, moves: seq<Step>, s: Step): World {
    Do(Meanwhile(w, moves), s)
  }

  lemma ThenLeads(w: World, moves: seq<Step>, s: Step)
    ensures Leads(w, Then(w, moves, s))
  {
    hide Leads, Do, Meanwhile;
    MeanwhileLeads(w, moves);
    DoLeads(Meanwhile(w, moves), s);
    LeadsOn(w, Meanwhile(w, moves), Then(w, moves, s));
  }

  // ---- recover_pending ----

  /** What the environment does before each effect of one cleanup. */
  datatype Moments = Moments(kill: seq<Step>, bind: seq<Step>, read: seq<Step>, query: seq<Step>, inspect: seq<Step>,
                             remember: seq<Step>, remove: seq<Step>, release: seq<Step>, clear: seq<Step>)

  function AtQuery(w: World, m: Moments): World {
    Meanwhile(Then(w, m.read, ReadPending), m.query)
  }

  function AtInspect(w: World, m: Moments): World {
    Meanwhile(Do(AtQuery(w, m), QueryExists), m.inspect)
  }

  /** The container the control calls name: the recorded ID, or else the job's name. */
  predicate Referenced(w: World, job: PendingJob) {
    match job.containerId
    case Some(id) => id in w.containers
    case None => NameTaken(w, job.name)
  }

  /** Each answer about a recorded job is true when it is given; a command that failed says nothing. */
  predicate TrueOfRow(w: World, a: Answers, m: Moments)
    requires w.tables.active.Some?
  {
    var job := w.tables.active.value;
    && (a.existsCode == Some(0) ==> Referenced(AtQuery(w, m), job))
    && (a.existsCode == Some(1) ==> !Referenced(AtQuery(w, m), job))
    && (a.inspected.Some? ==>
          var (i, containers) := (a.inspected.value, AtInspect(w, m).containers);
          i.id in containers && containers[i.id] == Container(i.name, i.token))
  }

  predicate Truthful(w: World, a: Answers, m: Moments) {
    a.identity.Some? ==>
      var bound := Then(w, m.bind, BindRuntime(a.identity.value));
      bound.tables.active.Some? ==> TrueOfRow(bound, a, m)
  }

  /** The world `recover_pending` leaves, effect by effect, with the environment moving in between. */
  function Reconciled(w: World, a: Answers, m: Moments): World {
    if !a.binaryPinned || a.identity.None? then w
    else
      var bound := Then(w, m.bind, BindRuntime(a.identity.value));
      if BindRuntimeTx(w.tables, a.identity.value).Err? then bound
      else if bound.tables.active.None? then Then(bound, m.read, ReadPending)
      else Identified(bound, a, m)
  }

  /** From the bound runtime on: the recorded container is found, recorded, removed and released. */
  function Identified(w: World, a: Answers, m: Moments): World
    requires w.tables.active.Some?
  {
    var job := w.tables.active.value;
    if !a.stillPinned then Do(AtQuery(w, m), Abandon)
    else if a.existsCode == Some(1) && job.containerId.Some? then SnapshotReleased(Do(AtQuery(w, m), QueryExists), a, m)
    else if a.existsCode == Some(1) then Do(AtQuery(w, m), QueryExists)
    else if a.existsCode != Some(0) then Do(AtQuery(w, m), Abandon)
    else if a.inspected.None? || !ContainerId(a.inspected.value.id) then Do(AtInspect(w, m), Abandon)
    else
      var seen := Do(AtInspect(w, m), Inspect(a.inspected.value.id));
      if !IsOwn(job, a) then seen
      else
        var known := Meanwhile(Then(seen, m.remember, Remember), m.remove);
        if !a.removed then Do(known, Abandon) else SnapshotReleased(Do(known, Remove), a, m)
  }

  /** The inspected container is this launch's, and the recorded one if one is recorded. */
  predicate IsOwn(job: PendingJob, a: Answers) {
    var id := OwnedContainerId(a.inspected, job.name, job.token);
    id.Some? && (job.containerId.Some? ==> job.containerId == id)
  }

  function SnapshotReleased(w: World, a: Answers, m: Moments): World {
    if !a.snapshotRemoved then Then(w, m.release, Abandon)
    else Then(Then(w, m.release, ReleaseSnapshot), m.clear, ClearJob)
  }

  lemma ReleasedLeads(w: World, a: Answers, m: Moments)
    ensures Leads(w, SnapshotReleased(w, a, m))
  {
    hide Leads, Then;
    if !a.snapshotRemoved {
      ThenLeads(w, m.release, Abandon);
    } else {
      var v := Then(w, m.release, ReleaseSnapshot);
      ThenLeads(w, m.release, ReleaseSnapshot);
      ThenLeads(v, m.clear, ClearJob);
      LeadsOn(w, v, Then(v, m.clear, ClearJob));
    }
  }

  lemma AbandonThen(w: World, moves: seq<Step>)
    requires w.owner.Up?
    ensures var v := Then(w, moves, Abandon); v.tables == w.tables && v.owner == Up(w.owner.held, Idle)
  {
    hide Meanwhile;
    MeanwhileLeads(w, moves);
  }

  lemma ReleaseThen(w: World, moves: seq<Step>, job: PendingJob)
    requires w.owner.Up? && w.owner.at == Removed(job)
    ensures var v := Then(w, moves, ReleaseSnapshot); v.tables == w.tables && v.owner == Up(w.owner.held, Released(job))
  {
    hide Meanwhile;
    MeanwhileLeads(w, moves);
  }

  lemma ClearThen(w: World, moves: seq<Step>, job: PendingJob)
    requires w.owner.Up? && w.owner.at == Released(job) && w.tables.active.Some? && SameLaunch(w.tables.active.value, job)
    ensures var v := Then(w, moves, ClearJob); v.tables == w.tables.(active := None) && v.owner == Up(None, Idle)
  {
    hide Meanwhile;
    MeanwhileLeads(w, moves);
  }

  lemma RememberThen(w: World, moves: seq<Step>, job: PendingJob, id: string)
    requires w.owner.Up? && w.owner.at == Inspected(job, id) && w.tables.active == Some(job)
    requires job.containerId.Some? ==> job.containerId.value == id
    ensures var v := Then(w, moves, Remember);
            && v.tables == w.tables.(active := Some(job.(containerId := Some(id))))
            && v.owner == Up(w.owner.held, Remembered(job, id))
  {
    hide Meanwhile;
    MeanwhileLeads(w, moves);
  }

  lemma RemoveEnds(w: World, job: PendingJob, id: string)
    requires w.owner.Up? && w.owner.at == Remembered(job, id)
    ensures Leads(w, Do(w, Remove))
    ensures Do(w, Remove).tables == w.tables && Do(w, Remove).owner == Up(w.owner.held, Removed(job))
  {
    hide Leads;
    DoLeads(w, Remove);
  }

  lemma AbandonEnds(w: World)
    requires w.owner.Up?
    ensures Leads(w, Do(w, Abandon)) && Do(w, Abandon) == w.(owner := Up(w.owner.held, Idle))
  {
    hide Leads;
    DoLeads(w, Abandon);
  }

  /** From a removed container: released and cleared, or given up with the row in place. */
  lemma ReleasedEnds(w: World, a: Answers, m: Moments, job: PendingJob)
    requires w.owner.Up? && w.owner.at == Removed(job) && w.tables.active.Some? && SameLaunch(w.tables.active.value, job)
    ensures var v := SnapshotReleased(w, a, m);
            && v.tables == ReleaseTx(w.tables, job, a).0
            && v.owner == Up(if ReleaseTx(w.tables, job, a).1.Ok? then None else w.owner.held, Idle)
  {
    hide Then;
    if a.snapshotRemoved {
      ReleaseThen(w, m.release, job);
      ClearThen(Then(w, m.release, ReleaseSnapshot), m.clear, job);
    } else {
      AbandonThen(w, m.release);
    }
  }

  lemma AtQueryIs(w: World, m: Moments)
    requires w.owner.Up? && w.owner.at.Idle? && w.tables.active.Some?
    requires w.owner.held.Some? ==> w.owner.held.value.child.None? && w.owner.held.value.name == w.tables.active.value.name
    ensures var v := AtQuery(w, m);
            Leads(w, v) && v.tables == w.tables && v.owner == Up(w.owner.held, Recovering(w.tables.active.value))
  {
    hide Meanwhile, Leads;
    MeanwhileLeads(w, m.read);
    ThenLeads(w, m.read, ReadPending);
    MeanwhileLeads(Then(w, m.read, ReadPending), m.query);
    LeadsOn(w, Then(w, m.read, ReadPending), AtQuery(w, m));
  }

  lemma AtInspectIs(w: World, m: Moments, job: PendingJob)
    requires AtQuery(w, m).owner.Up? && AtQuery(w, m).owner.at == Recovering(job) && Referenced(AtQuery(w, m), job)
    ensures var (q, v) := (AtQuery(w, m), AtInspect(w, m));
            Leads(q, v) && v.tables == q.tables && v.owner == Up(q.owner.held, Present(job))
  {
    hide Meanwhile, Leads, AtQuery;
    var q := AtQuery(w, m);
    DoLeads(q, QueryExists);
    MeanwhileLeads(Do(q, QueryExists), m.inspect);
    LeadsOn(q, Do(q, QueryExists), AtInspect(w, m));
  }

  /** From an inspected container of this launch: recorded, then removed, then released. */
  lemma OwnContainerEnds(w: World, a: Answers, m: Moments, job: PendingJob, id: string)
    requires w.owner.Up? && w.owner.at == Inspected(job, id) && w.tables.active == Some(job)
    requires job.containerId.Some? ==> job.containerId.value == id
    ensures var known := Meanwhile(Then(w, m.remember, Remember), m.remove);
            var v := if !a.removed then Do(known, Abandon) else SnapshotReleased(Do(known, Remove), a, m);
            var t := w.tables.(active := Some(job.(containerId := Some(id))));
            && Leads(w, v)
            && v.tables == (if a.removed then ReleaseTx(t, job, a).0 else t)
            && v.owner == Up(if a.removed && ReleaseTx(t, job, a).1.Ok? then None else w.owner.held, Idle)
  {
    hide Meanwhile, Leads, SnapshotReleased, Then, Do;
    var remembered := Then(w, m.remember, Remember);
    RememberThen(w, m.remember, job, id);
    ThenLeads(w, m.remember, Remember);
    var known := Meanwhile(remembered, m.remove);
    MeanwhileLeads(remembered, m.remove);
    LeadsOn(w, remembered, known);
    if !a.removed {
      AbandonEnds(known);
      LeadsOn(w, known, Do(known, Abandon));
    } else {
      var gone := Do(known, Remove);
      RemoveEnds(known, job, id);
      LeadsOn(w, known, gone);
      ReleasedLeads(gone, a, m);
      ReleasedEnds(gone, a, m, job);
      LeadsOn(w, gone, SnapshotReleased(gone, a, m));
    }
  }

  /** The owner is between jobs, or holds the recorded job without a child. */
  predicate MayReconcile(w: World) {
    && w.owner.Up? && w.owner.at.Idle?
    && (w.owner.held.Some? ==>
          w.owner.held.value.child.None?
          && w.tables.active.Some? && w.owner.held.value.name == w.tables.active.value.name)
  }

  lemma AbsentEnds(w: World, a: Answers, m: Moments)
    requires MayReconcile(w) && w.tables.active.Some? && TrueOfRow(w, a, m) && a.existsCode == Some(1)
    requires a.binaryPinned && a.identity.Some? && w.tables.runtime == a.identity && a.stillPinned
    ensures var (v, (t, r)) := (Identified(w, a, m), RecoverTx(w.tables, a));
            Leads(w, v) && v.tables == t && v.owner == Up(if r.Ok? then None else w.owner.held, Idle)
  {
    hide Leads, Meanwhile, SnapshotReleased, AtQuery, Then;
    var (q, job) := (AtQuery(w, m), w.tables.active.value);
    AtQueryIs(w, m);
    DoLeads(q, QueryExists);
    var v := Do(q, QueryExists);
    LeadsOn(w, q, v);
    if job.containerId.Some? {
      ReleasedLeads(v, a, m);
      ReleasedEnds(v, a, m, job);
      LeadsOn(w, v, SnapshotReleased(v, a, m));
    }
  }

  lemma PresentEnds(w: World, a: Answers, m: Moments)
    requires MayReconcile(w) && w.tables.active.Some? && TrueOfRow(w, a, m) && a.existsCode == Some(0)
    requires a.binaryPinned && a.identity.Some? && w.tables.runtime == a.identity && a.stillPinned
    ensures var (v, (t, r)) := (Identified(w, a, m), RecoverTx(w.tables, a));
            Leads(w, v) && v.tables == t && v.owner == Up(if r.Ok? then None else w.owner.held, Idle)
  {
    hide Leads, Meanwhile, SnapshotReleased, AtQuery, AtInspect, Then, ContainerId, Apply;
    var (q, i, job) := (AtQuery(w, m), AtInspect(w, m), w.tables.active.value);
    AtQueryIs(w, m);
    AtInspectIs(w, m, job);
    LeadsOn(w, q, i);
    if a.inspected.None? || !ContainerId(a.inspected.value.id) {
      AbandonEnds(i);
      LeadsOn(w, i, Do(i, Abandon));
    } else {
      var id := a.inspected.value.id;
      var seen := Do(i, Inspect(id));
      DoLeads(i, Inspect(id));
      LeadsOn(w, i, seen);
      InspectEnds(i, job, a);
      if IsOwn(job, a) {
        OwnContainerEnds(seen, a, m, job, id);
        LeadsOn(w, seen, Identified(w, a, m));
      }
    }
  }

  /** The protocol's inspection passes exactly the containers the code takes for its own. */
  lemma InspectEnds(w: World, job: PendingJob, a: Answers)
    requires w.owner.Up? && w.owner.at == Present(job) && a.inspected.Some? && ContainerId(a.inspected.value.id)
    requires var i := a.inspected.value; i.id in w.containers && w.containers[i.id] == Container(i.name, i.token)
    ensures var id := a.inspected.value.id;
            Do(w, Inspect(id)) == w.(owner := Up(w.owner.held, if IsOwn(job, a) then Inspected(job, id) else Idle))
  {
    hide ContainerId;
  }

  lemma IdentifiedEnds(w: World, a: Answers, m: Moments)
    requires MayReconcile(w) && w.tables.active.Some? && TrueOfRow(w, a, m)
    requires a.binaryPinned && a.identity.Some? && w.tables.runtime == a.identity
    ensures var (v, (t, r)) := (Identified(w, a, m), RecoverTx(w.tables, a));
            Leads(w, v) && v.tables == t && v.owner == Up(if r.Ok? then None else w.owner.held, Idle)
  {
    hide Leads, TrueOfRow, AtQuery, AtInspect, SnapshotReleased, Then, Meanwhile, Do, IsOwn;
    if a.stillPinned && a.existsCode == Some(1) {
      AbsentEnds(w, a, m);
    } else if a.stillPinned && a.existsCode == Some(0) {
      PresentEnds(w, a, m);
    } else {
      AtQueryIs(w, m);
      AbandonEnds(AtQuery(w, m));
      LeadsOn(w, AtQuery(w, m), Do(AtQuery(w, m), Abandon));
    }
  }

  lemma BoundIs(w: World, m: Moments, identity: string)
    requires MayReconcile(w)
    ensures var v := Then(w, m.bind, BindRuntime(identity));
            && Leads(w, v) && v.owner == w.owner
            && v.tables == (match BindRuntimeTx(w.tables, identity) case Ok(t) => t case Err(_) => w.tables)
  {
    hide Leads, Meanwhile;
    MeanwhileLeads(w, m.bind);
    ThenLeads(w, m.bind, BindRuntime(identity));
  }

  /** Nothing is recorded and nothing held: reading the row ends the reconciliation. */
  lemma NothingPending(w: World, m: Moments)
    requires w.owner == Up(None, Idle) && w.tables.active.None?
    ensures var v := Then(w, m.read, ReadPending); Leads(w, v) && v.owner == w.owner && v.tables == w.tables
  {
    hide Leads, Meanwhile;
    MeanwhileLeads(w, m.read);
    ThenLeads(w, m.read, ReadPending);
  }

  /** Binding twice is binding once. */
  lemma RecoverAfterBinding(t: JobTables, a: Answers)
    requires a.binaryPinned && a.identity.Some? && BindRuntimeTx(t, a.identity.value).Ok?
    ensures var bound := BindRuntimeTx(t, a.identity.value).value;
            bound.runtime == a.identity && bound.active == t.active && RecoverTx(bound, a) == RecoverTx(t, a)
  {
    hide OwnedContainerId;
  }

  /**
   `recover_pending` is a run of the protocol: whatever the control calls answer and the environment
   does in between, if each answer is true when it is given, its effects are protocol steps, and they
   leave the tables and the owner the code leaves.
   */
  lemma RecoverFollowsProtocol(w: World, a: Answers, m: Moments)
    requires MayReconcile(w) && Truthful(w, a, m)
    ensures var (v, (t, r)) := (Reconciled(w, a, m), RecoverTx(w.tables, a));
            Leads(w, v) && v.tables == t && v.owner == Up(if r.Ok? then None else w.owner.held, Idle)
  {
    hide Leads, TrueOfRow, Identified, Then;
    if !a.binaryPinned || a.identity.None? {
      LeadsNowhere(w);
    } else {
      var bound := Then(w, m.bind, BindRuntime(a.identity.value));
      BoundIs(w, m, a.identity.value);
      if BindRuntimeTx(w.tables, a.identity.value).Ok? {
        RecoverAfterBinding(w.tables, a);
        if bound.tables.active.None? {
          NothingPending(bound, m);
        } else {
          IdentifiedEnds(bound, a, m);
        }
        LeadsOn(w, bound, Reconciled(w, a, m));
      }
    }
  }

  // ---- cleanup ----

  /** The held child, if there is one, is killed and reaped. */
  function Reaped(w: World, m: Moments): World {
    if w.owner.Up? && w.owner.held.Some? && w.owner.held.value.child.Some? then Then(w, m.kill, KillChild) else w
  }

  /** The world `cleanup` leaves. */
  function CleanedUp(w: World, killed: bool, a: Answers, m: Moments): World
    requires w.owner.Up?
  {
    var held := w.owner.held;
    if held.None? then Reconciled(w, a, m)
    else if held.value.child.Some? && !killed then w
    else
      var reaped := Reaped(w, m);
      if reaped.tables.active.None? || reaped.tables.active.value.name != held.value.name then Do(reaped, ReadPending)
      else Reconciled(reaped, a, m)
  }

  lemma ReapedIs(w: World, m: Moments)
    requires w.owner.Up? && w.owner.at.Idle? && w.owner.held.Some?
    ensures var v := Reaped(w, m);
            && Leads(w, v) && v.tables == w.tables && v.owner == Up(Some(w.owner.held.value.(child := None)), Idle)
  {
    hide Leads, Meanwhile;
    LeadsNowhere(w);
    if w.owner.held.value.child.Some? {
      MeanwhileLeads(w, m.kill);
      ThenLeads(w, m.kill, KillChild);
    }
  }

  lemma NothingReaped(w: World, m: Moments)
    requires w.owner.Up? && w.owner.held.None?
    ensures Reaped(w, m) == w
  {
  }

  /** Without a pending row of the held job, reading it ends the cleanup. */
  lemma ReadNothing(w: World)
    requires w.owner.Up? && w.owner.at.Idle? && w.owner.held.Some? && w.owner.held.value.child.None?
    requires w.tables.active.None? || w.tables.active.value.name != w.owner.held.value.name
    ensures Leads(w, Do(w, ReadPending)) && Do(w, ReadPending) == w
  {
    hide Leads;
    DoLeads(w, ReadPending);
  }

  /** `cleanup` is a run of the protocol. */
  lemma CleanupFollowsProtocol(w: World, killed: bool, a: Answers, m: Moments)
    requires w.owner.Up? && w.owner.at.Idle? && Truthful(Reaped(w, m), a, m)
    ensures var (v, (t, held, r)) := (CleanedUp(w, killed, a, m), CleanupTx(w.tables, w.owner.held, killed, a));
            Leads(w, v) && v.tables == t && v.owner == Up(held, Idle)
  {
    hide Leads, Truthful, Reconciled, RecoverTx, Do, Reaped;
    LeadsNowhere(w);
    var held := w.owner.held;
    if held.None? {
      NothingReaped(w, m);
      RecoverFollowsProtocol(w, a, m);
    } else if !(held.value.child.Some? && !killed) {
      var reaped := Reaped(w, m);
      ReapedIs(w, m);
      if reaped.tables.active.None? || reaped.tables.active.value.name != held.value.name {
        ReadNothing(reaped);
      } else {
        RecoverFollowsProtocol(reaped, a, m);
        LeadsOn(w, reaped, Reconciled(reaped, a, m));
      }
    }
  }

  // ---- validate ----

  /** What the environment does before each effect of a launch. */
  datatype LaunchMoments = LaunchMoments(begin: seq<Step>, spawn: seq<Step>, release: seq<Step>, clear: seq<Step>)

  /** The launch intent, then the launcher or its refusal. */
  function Started(w: World, attempt: Attempt, m: LaunchMoments): World
    requires attempt.lease.Some?
  {
    var begun := Then(w, m.begin, BeginJob(attempt.token, attempt.lease.value));
    if attempt.spawned.Some? then Then(begun, m.spawn, Spawn)
    else
      var refused := Then(begun, m.spawn, SpawnFails);
      if !attempt.unlaunchedReleased then Then(refused, m.release, Abandon)
      else Then(Then(refused, m.release, ReleaseUnlaunched), m.clear, ClearUnlaunched)
  }

  /** The token is random, the snapshot is on disk, and the child is the process the spawn started. */
  predicate TruthfulLaunch(w: World, attempt: Attempt, m: LaunchMoments) {
    var v := Meanwhile(w, m.begin);
    && FreshToken(v, attempt.token) && (attempt.lease.Some? ==> attempt.lease.value in v.directories)
    && (attempt.spawned.Some? ==> attempt.spawned.value == v.spawned)
  }

  lemma BegunIs(w: World, attempt: Attempt, m: LaunchMoments)
    requires w.owner == Up(None, Idle) && TruthfulLaunch(w, attempt, m)
    requires attempt.lease.Some? && BeginTx(w.tables, attempt.token, attempt.lease).Ok?
    ensures var v := Then(w, m.begin, BeginJob(attempt.token, attempt.lease.value));
            var (t, job) := BeginTx(w.tables, attempt.token, attempt.lease).value;
            && Leads(w, v) && v.tables == t && v.owner == Up(None, Launching(job))
            && v.spawned == Meanwhile(w, m.begin).spawned
  {
    hide Leads, Meanwhile;
    MeanwhileLeads(w, m.begin);
    ThenLeads(w, m.begin, BeginJob(attempt.token, attempt.lease.value));
  }

  lemma SpawnedIs(w: World, moves: seq<Step>, job: PendingJob)
    requires w.owner == Up(None, Launching(job))
    ensures var v := Then(w, moves, Spawn);
            Leads(w, v) && v.tables == w.tables && v.owner == Up(Some(Held(job.name, Some(w.spawned))), Idle)
  {
    hide Leads, Meanwhile;
    MeanwhileLeads(w, moves);
    ThenLeads(w, moves, Spawn);
  }

  /** A refused spawn: the snapshot is released and the row cleared, or both stay. */
  lemma RefusedIs(w: World, m: LaunchMoments, job: PendingJob, released: bool)
    requires w.owner == Up(None, Launching(job)) && w.tables.active == Some(job)
    ensures var refused := Then(w, m.spawn, SpawnFails);
            var v := if !released then Then(refused, m.release, Abandon)
                     else Then(Then(refused, m.release, ReleaseUnlaunched), m.clear, ClearUnlaunched);
            && Leads(w, v) && v.owner == Up(None, Idle)
            && v.tables == if released then w.tables.(active := None) else w.tables
  {
    hide Leads, Meanwhile;
    var refused := Then(w, m.spawn, SpawnFails);
    MeanwhileLeads(w, m.spawn);
    ThenLeads(w, m.spawn, SpawnFails);
    MeanwhileLeads(refused, m.release);
    if !released {
      ThenLeads(refused, m.release, Abandon);
      LeadsOn(w, refused, Then(refused, m.release, Abandon));
    } else {
      var unlaunched := Then(refused, m.release, ReleaseUnlaunched);
      ThenLeads(refused, m.release, ReleaseUnlaunched);
      MeanwhileLeads(unlaunched, m.clear);
      ThenLeads(unlaunched, m.clear, ClearUnlaunched);
      LeadsOn(w, refused, unlaunched);
      LeadsOn(w, unlaunched, Then(unlaunched, m.clear, ClearUnlaunched));
    }
  }

  lemma StartedIs(w: World, attempt: Attempt, m: LaunchMoments)
    requires w.owner == Up(None, Idle) && TruthfulLaunch(w, attempt, m)
    requires attempt.lease.Some? && BeginTx(w.tables, attempt.token, attempt.lease).Ok?
    ensures var (v, (t, job)) := (Started(w, attempt, m), BeginTx(w.tables, attempt.token, attempt.lease).value);
            && Leads(w, v)
            && v.tables == (if attempt.spawned.None? && attempt.unlaunchedReleased then t.(active := None) else t)
            && v.owner == Up(if attempt.spawned.Some? then Some(Held(job.name, attempt.spawned)) else None, Idle)
  {
    hide Leads, Meanwhile, Then, Do;
    var begun := Then(w, m.begin, BeginJob(attempt.token, attempt.lease.value));
    var job := BeginTx(w.tables, attempt.token, attempt.lease).value.1;
    BegunIs(w, attempt, m);
    if attempt.spawned.Some? {
      MeanwhileLeads(begun, m.spawn);
      SpawnedIs(begun, m.spawn, job);
    } else {
      RefusedIs(begun, m, job, attempt.unlaunchedReleased);
    }
    LeadsOn(w, begun, Started(w, attempt, m));
  }

  /** One validation as the outside sees it: its moments, and what it is told on the way. */
  datatype Validation = Validation(killedBefore: bool, before: Answers, first: Moments, attempt: Attempt, launch: LaunchMoments,
                                   killedAfter: bool, after: Answers, second: Moments)

  /** The launch is reached. */
  predicate Launches(t: JobTables, held: Option<Held>, x: Validation) {
    var (u, _, cleaned) := CleanupTx(t, held, x.killedBefore, x.before);
    cleaned.Ok? && x.attempt.preflight && BeginTx(u, x.attempt.token, x.attempt.lease).Ok?
  }

  /** The world before the launch, and the world before the second cleanup. */
  function BeforeLaunch(w: World, x: Validation): World
    requires w.owner.Up?
  {
    CleanedUp(w, x.killedBefore, x.before, x.first)
  }

  function AfterLaunch(w: World, x: Validation): World
    requires w.owner.Up? && x.attempt.lease.Some?
  {
    Started(BeforeLaunch(w, x), x.attempt, x.launch)
  }

  /** Every answer along one validation is true when it is given. */
  predicate TruthfulValidation(w: World, x: Validation)
    requires w.owner.Up?
  {
    && Truthful(Reaped(w, x.first), x.before, x.first)
    && (Launches(w.tables, w.owner.held, x) ==>
          && TruthfulLaunch(BeforeLaunch(w, x), x.attempt, x.launch)
          && Truthful(Reaped(AfterLaunch(w, x), x.second), x.after, x.second))
  }

  /** The world `validate` leaves. */
  function Validated(w: World, x: Validation): World
    requires w.owner.Up? && w.owner.at.Idle? && TruthfulValidation(w, x)
  {
    if !Launches(w.tables, w.owner.held, x) then BeforeLaunch(w, x)
    else
      LaunchIs(w, x);
      if x.attempt.spawned.None? then AfterLaunch(w, x) else CleanedUp(AfterLaunch(w, x), x.killedAfter, x.after, x.second)
  }

  lemma LaunchIs(w: World, x: Validation)
    requires w.owner.Up? && w.owner.at.Idle? && TruthfulValidation(w, x) && Launches(w.tables, w.owner.held, x)
    ensures var u := CleanupTx(w.tables, w.owner.held, x.killedBefore, x.before).0;
            var (v, (t, job)) := (AfterLaunch(w, x), BeginTx(u, x.attempt.token, x.attempt.lease).value);
            && Leads(w, v)
            && v.tables == (if x.attempt.spawned.None? && x.attempt.unlaunchedReleased then t.(active := None) else t)
            && v.owner == Up(if x.attempt.spawned.Some? then Some(Held(job.name, x.attempt.spawned)) else None, Idle)
  {
    hide Leads, Truthful, TruthfulLaunch, CleanedUp, Started, CleanupTx, Reaped;
    CleanupFollowsProtocol(w, x.killedBefore, x.before, x.first);
    CleanupClears(w.tables, w.owner.held, x.killedBefore, x.before);
    StartedIs(BeforeLaunch(w, x), x.attempt, x.launch);
    LeadsOn(w, BeforeLaunch(w, x), AfterLaunch(w, x));
  }

  /**
   `validate` is a run of the protocol, whatever it is told, the environment does and the workload
   ends in: so every property of the protocol's runs, and its invariant, holds of the code.
   */
  lemma ValidateFollowsProtocol<Receipt>(w: World, x: Validation, finished: Result<Receipt, SandboxError>)
    requires w.owner.Up? && w.owner.at.Idle? && TruthfulValidation(w, x)
    ensures var v := Validated(w, x);
            var (t, held, r) := ValidateTx(w.tables, w.owner.held, x.killedBefore, x.before, x.attempt, finished, x.killedAfter, x.after);
            Leads(w, v) && v.tables == t && v.owner == Up(held, Idle) && (Inv(w) ==> Inv(v))
  {
    hide Leads, Truthful, TruthfulLaunch, CleanedUp, Started, CleanupTx, Reaped, Inv;
    CleanupFollowsProtocol(w, x.killedBefore, x.before, x.first);
    var (u, left, _) := CleanupTx(w.tables, w.owner.held, x.killedBefore, x.before);
    if !Launches(w.tables, w.owner.held, x) {
      var (t, held, r) := ValidateTx(w.tables, w.owner.held, x.killedBefore, x.before, x.attempt, finished, x.killedAfter, x.after);
      assert t == u && held == left;
    } else {
      CleanupClears(w.tables, w.owner.held, x.killedBefore, x.before);
      LaunchIs(w, x);
      if x.attempt.spawned.Some? {
        var v := AfterLaunch(w, x);
        CleanupFollowsProtocol(v, x.killedAfter, x.after, x.second);
        LeadsOn(w, v, Validated(w, x));
      }
    }
    LeadsKeepsInv(w, Validated(w, x));
  }

  // ---- Without a disturbance ----

  /** What an undisturbed runtime answers in world w about container `id`. */
  function AnswersIn(w: World, id: string, identity: string): Answers {
    Answers(true, Some(identity), true, Some(if id in w.containers then 0 else 1),
            if id in w.containers then Some(Inspection(id, w.containers[id].name, w.containers[id].token)) else None,
            true, true)
  }

  /** Run without interference, `recover_pending` does exactly the protocol's reconciliation steps. */
  lemma RecoverIsProtocol(w: World, id: string, identity: string)
    requires Inv(w) && w.owner.Down? && w.tables.active.Some? && w.tables.runtime == Some(identity)
    requires ContainerId(id)
    requires if w.tables.active.value.containerId.Some? then w.tables.active.value.containerId.value == id
             else Owned(w, id)
    ensures Run(w, RecoveryScript(w, id)).Some?
    ensures RecoverTx(w.tables, AnswersIn(w, id, identity))
            == (Run(w, RecoveryScript(w, id)).value.tables, Ok(()))
  {
    RecoveryScriptClears(w, id);
    if id in w.containers { assert Owned(w, id); }
    RecoverClearsExactly(w.tables, AnswersIn(w, id, identity));
  }
}
