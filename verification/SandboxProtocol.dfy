/**
 The worker's container protocol (src/gitops/sandbox/runner.rs over jobs.rs) as a state machine
 over single durable or external effects. Between any two effects the owner may crash or be
 cancelled, a launcher may create its container or die, and the environment may create or remove
 containers and directories. One launcher creates at most one container; container IDs and
 random tokens are never drawn twice.
 */
module SandboxProtocol {
  import opened Outcomes
  import opened Jobs

  /** A `podman run` process; once it has created its container it is `spent`. */
  datatype Launcher = Launcher(name: JobName, token: string, spent: bool)

  datatype Container = Container(name: JobName, token: string)

  /** The job this process believes it is running (`RootlessValidator.active`). */
  datatype Held = Held(name: JobName, child: Option<nat>)

  /** Where the owner stands between two effects. */
  datatype Point =
    | Idle
    | Launching(job: PendingJob)
    | Refused(job: PendingJob)
    | Unlaunched(job: PendingJob)
    | Recovering(job: PendingJob)
    | Present(job: PendingJob)
    | Inspected(job: PendingJob, id: string)
    | Remembered(job: PendingJob, id: string)
    | Removed(job: PendingJob)
    | Released(job: PendingJob)

  datatype Owner = Down | Up(held: Option<Held>, at: Point)

  datatype World = World(
    tables: JobTables,
    containers: map<string, Container>,
    launchers: map<nat, Launcher>,
    directories: set<SnapshotLease>,
    owner: Owner,
    // What has ever been drawn, started, created or leased.
    issued: set<string>,
    spawned: nat,
    usedIds: set<string>,
    leased: set<SnapshotLease>)

  datatype Step =
    | Open | Crash | Abandon
    | LauncherExits(pid: nat) | LauncherCreates(pid: nat, id: string)
    | ContainerVanishes(id: string) | ForeignCreates(id: string, name: JobName, token: string)
    | DirectoryAppears(lease: SnapshotLease) | DirectoryVanishes(lease: SnapshotLease)
    | BeginJob(token: string, lease: SnapshotLease)
    | Spawn | SpawnFails | ReleaseUnlaunched | ClearUnlaunched
    | KillChild | BindRuntime(identity: string) | ReadPending | QueryExists | Inspect(id: string)
    | Remember | Remove | ReleaseSnapshot | ClearJob

  function Initial(namespace: string): World {
    World(JobTables(namespace, 0, None, {}, None), map[], map[], {}, Down, {}, 0, {}, {})
  }

  predicate NameTaken(w: World, name: JobName) {
    exists id | id in w.containers :: w.containers[id].name == name
  }

  predicate FreshToken(w: World, token: string) {
    && token !in w.issued
    && (forall id | id in w.containers :: w.containers[id].token != token)
  }

  /** Effects of the environment and of process loss. */
  function Outside(w: World, s: Step): Option<World> {
    match s
    case Open => if w.owner.Down? then Some(w.(owner := Up(None, Idle))) else None
    case Crash => Some(w.(owner := Down))
    case Abandon => if w.owner.Up? then Some(w.(owner := Up(w.owner.held, Idle))) else None
    case LauncherExits(pid) => Some(w.(launchers := w.launchers - {pid}))
    case LauncherCreates(pid, id) =>
      if pid in w.launchers && !w.launchers[pid].spent && id !in w.usedIds && !NameTaken(w, w.launchers[pid].name) then
        var l := w.launchers[pid];
        Some(w.(containers := w.containers[id := Container(l.name, l.token)],
                launchers := w.launchers[pid := l.(spent := true)],
                usedIds := w.usedIds + {id}))
      else None
    case ContainerVanishes(id) => Some(w.(containers := w.containers - {id}))
    case ForeignCreates(id, name, token) =>
      if id !in w.usedIds && !NameTaken(w, name) && token !in w.issued then
        Some(w.(containers := w.containers[id := Container(name, token)], usedIds := w.usedIds + {id}))
      else None
    case DirectoryAppears(lease) =>
      if lease !in w.leased then Some(w.(directories := w.directories + {lease})) else None
    case DirectoryVanishes(lease) => Some(w.(directories := w.directories - {lease}))
    case _ => None
  }

  /** `validate`: the launch intent is durable before the launcher exists. */
  function Launch(w: World, s: Step): Option<World> {
    if w.owner.Down? then None else
    match (s, w.owner.at)
    case (BeginJob(token, lease), Idle) =>
      if w.owner.held.Some? || !FreshToken(w, token) then None else
      (match BeginTx(w.tables, token, if lease in w.directories then Some(lease) else None)
       case Err(_) => None
       case Ok(out) => Some(w.(tables := out.0, owner := Up(None, Launching(out.1)),
                               issued := w.issued + {token}, leased := w.leased + {lease})))
    case (Spawn, Launching(job)) =>
      Some(w.(launchers := w.launchers[w.spawned := Launcher(job.name, job.token, false)], spawned := w.spawned + 1,
              owner := Up(Some(Held(job.name, Some(w.spawned))), Idle)))
    case (SpawnFails, Launching(job)) => Some(w.(owner := Up(w.owner.held, Refused(job))))
    case (ReleaseUnlaunched, Refused(job)) =>
      Some(w.(directories := w.directories - {job.snapshot}, owner := Up(w.owner.held, Unlaunched(job))))
    case (ClearUnlaunched, Unlaunched(job)) =>
      (match ClearTx(w.tables, job)
       case Err(_) => None
       case Ok(t) => Some(w.(tables := t, owner := Up(w.owner.held, Idle))))
    case _ => None
  }

  /** `cleanup` and `recover_pending`; a failed check returns the owner to Idle with its row intact. */
  function Recover(w: World, s: Step): Option<World> {
    if w.owner.Down? then None else
    var failed := w.(owner := Up(w.owner.held, Idle));
    match (s, w.owner.at)
    case (KillChild, Idle) =>
      if w.owner.held.Some? && w.owner.held.value.child.Some? then
        Some(w.(launchers := w.launchers - {w.owner.held.value.child.value},
                owner := Up(Some(w.owner.held.value.(child := None)), Idle)))
      else None
    case (BindRuntime(identity), Idle) =>
      if w.owner.held.Some? && w.owner.held.value.child.Some? then None else
      (match BindRuntimeTx(w.tables, identity)
       case Err(_) => Some(failed)
       case Ok(t) => Some(w.(tables := t)))
    case (ReadPending, Idle) =>
      if w.owner.held.Some? && w.owner.held.value.child.Some? then None
      else if w.tables.active.None? then Some(failed)
      else if w.owner.held.Some? && w.owner.held.value.name != w.tables.active.value.name then Some(failed)
      else Some(w.(owner := Up(w.owner.held, Recovering(w.tables.active.value))))
    case (QueryExists, Recovering(job)) =>
      (match job.containerId
       case Some(id) =>
         Some(w.(owner := Up(w.owner.held, if id in w.containers then Present(job) else Removed(job))))
       case None => Some(if NameTaken(w, job.name) then w.(owner := Up(w.owner.held, Present(job))) else failed))
    case (Inspect(id), Present(job)) =>
      if id !in w.containers || (job.containerId.Some? && job.containerId.value != id)
         || w.containers[id].name != job.name || w.containers[id].token != job.token
      then Some(failed)
      else Some(w.(owner := Up(w.owner.held, Inspected(job, id))))
    case (Remember, Inspected(job, id)) =>
      (match RememberContainerTx(w.tables, job, id)
       case Err(_) => Some(failed)
       case Ok(t) => Some(w.(tables := t, owner := Up(w.owner.held, Remembered(job, id)))))
    case (Remove, Remembered(job, id)) =>
      Some(w.(containers := w.containers - {id}, owner := Up(w.owner.held, Removed(job))))
    case (ReleaseSnapshot, Removed(job)) =>
      Some(w.(directories := w.directories - {job.snapshot}, owner := Up(w.owner.held, Released(job))))
    case (ClearJob, Released(job)) =>
      (match ClearTx(w.tables, job)
       case Err(_) => Some(failed)
       case Ok(t) => Some(w.(tables := t, owner := Up(None, Idle))))
    case _ => None
  }

  /** One effect; None when it cannot happen here. */
  function Apply(w: World, s: Step): Option<World> {
    if s.BeginJob? || s.Spawn? || s.SpawnFails? || s.ReleaseUnlaunched? || s.ClearUnlaunched? then Launch(w, s)
    else if s.KillChild? || s.BindRuntime? || s.ReadPending? || s.QueryExists? || s.Inspect? || s.Remember? || s.Remove?
            || s.ReleaseSnapshot? || s.ClearJob? then Recover(w, s)
    else Outside(w, s)
  }

  function Run(w: World, steps: seq<Step>): Option<World>
    decreases |steps|
  {
    if steps == [] then Some(w)
    else match Apply(w, steps[0])
      case None => None
      case Some(v) => Run(v, steps[1..])
  }

  // ---- The invariant ----

  /** A launcher that may still create a container. */
  predicate Live(w: World, pid: nat) {
    pid in w.launchers && !w.launchers[pid].spent
  }

  /** A container labelled with one of this store's tokens. */
  predicate Owned(w: World, id: string) {
    id in w.containers && w.containers[id].token in w.issued
  }

  predicate NamedByRow(w: World, name: JobName, token: string) {
    w.tables.active.Some? && w.tables.active.value.name == name && w.tables.active.value.token == token
  }

  ghost predicate WorkloadsNamed(w: World) {
    && (forall pid | Live(w, pid) :: NamedByRow(w, w.launchers[pid].name, w.launchers[pid].token))
    && (forall id | Owned(w, id) :: NamedByRow(w, w.containers[id].name, w.containers[id].token))
  }

  ghost predicate AtMostOneWorkload(w: World) {
    && (forall p, q | Live(w, p) && Live(w, q) :: p == q)
    && (forall i, j | Owned(w, i) && Owned(w, j) :: i == j)
    && (forall p, i | Live(w, p) && Owned(w, i) :: false)
  }

  ghost predicate Quiet(w: World) {
    (forall pid :: !Live(w, pid)) && (forall id :: !Owned(w, id))
  }

  /** `id` is the one container this launch made or ever will make. */
  ghost predicate OnlyContainer(w: World, token: string, id: string) {
    && id in w.usedIds
    && (forall pid :: !Live(w, pid))
    && (forall i | Owned(w, i) :: i == id)
    && (id in w.containers ==> w.containers[id].token == token)
  }

  ghost predicate OwnerAgrees(w: World) {
    w.owner.Up? ==>
      && (w.owner.held.Some? ==> w.tables.active.Some? && w.tables.active.value.name == w.owner.held.value.name)
      && match w.owner.at
         case Idle => true
         case Launching(job) => w.owner.held.None? && job.containerId.None? && w.tables.active == Some(job) && Quiet(w)
         case Refused(job) => w.owner.held.None? && w.tables.active == Some(job) && Quiet(w)
         case Unlaunched(job) =>
           w.owner.held.None? && w.tables.active == Some(job) && Quiet(w) && job.snapshot !in w.directories
         case Recovering(job) => w.tables.active == Some(job)
         case Present(job) => w.tables.active == Some(job)
         case Inspected(job, id) => w.tables.active == Some(job) && OnlyContainer(w, job.token, id)
         case Remembered(job, id) => w.tables.active == Some(job.(containerId := Some(id)))
         case Removed(job) => Matches(w, job) && Quiet(w) && w.tables.active.value.containerId.Some?
         case Released(job) =>
           Matches(w, job) && Quiet(w) && w.tables.active.value.containerId.Some? && job.snapshot !in w.directories
  }

  predicate Matches(w: World, job: PendingJob) {
    w.tables.active.Some? && SameLaunch(w.tables.active.value, job) && w.tables.active.value.snapshot == job.snapshot
  }

  ghost predicate Inv(w: World) {
    && (w.tables.active.Some? ==> w.tables.active.value.token in w.issued && w.tables.active.value.snapshot in w.leased)
    && (forall pid | pid in w.launchers :: pid < w.spawned && w.launchers[pid].token in w.issued)
    && (forall id | id in w.containers :: id in w.usedIds)
    && WorkloadsNamed(w)
    && AtMostOneWorkload(w)
    && (w.tables.active.Some? && w.tables.active.value.containerId.Some? ==>
          OnlyContainer(w, w.tables.active.value.token, w.tables.active.value.containerId.value))
    && OwnerAgrees(w)
    && (forall d | d in w.leased && d in w.directories :: w.tables.active.Some? && w.tables.active.value.snapshot == d)
  }

  /** Everything in v was in w: no launcher gained, no container gained, no name drawn. */
  predicate Shrinks(w: World, v: World) {
    && v.issued == w.issued && v.usedIds == w.usedIds && v.spawned == w.spawned && v.leased == w.leased
    && (forall pid | pid in v.launchers :: pid in w.launchers && v.launchers[pid] == w.launchers[pid])
    && (forall id | id in v.containers :: id in w.containers && v.containers[id] == w.containers[id])
    && v.directories <= w.directories
  }

  /** When nothing grows, only the row and the owner's own claims need checking. */
  lemma ShrinkKeepsInv(w: World, v: World)
    requires Inv(w) && Shrinks(w, v) && v.tables.active == w.tables.active && OwnerAgrees(v)
    ensures Inv(v)
  {
    assert forall pid | Live(v, pid) :: Live(w, pid);
    assert forall id | Owned(v, id) :: Owned(w, id);
  }

  lemma ShrinkKeepsQuiet(w: World, v: World)
    requires Shrinks(w, v)
    ensures Quiet(w) ==> Quiet(v)
    ensures forall token, id :: OnlyContainer(w, token, id) ==> OnlyContainer(v, token, id)
  {
    assert forall pid | Live(v, pid) :: Live(w, pid);
    assert forall id | Owned(v, id) :: Owned(w, id);
  }

  lemma CreateKeepsInv(w: World, pid: nat, id: string)
    requires Inv(w) && Outside(w, LauncherCreates(pid, id)).Some?
    ensures Inv(Outside(w, LauncherCreates(pid, id)).value)
  {
    var v := Outside(w, LauncherCreates(pid, id)).value;
    assert Live(w, pid);
    forall p ensures !Live(v, p) { assert Live(v, p) ==> Live(w, p) && p != pid; }
    assert forall i | Owned(v, i) :: i == id || Owned(w, i);
    assert Owned(v, id);
  }

  lemma ForeignKeepsInv(w: World, s: Step)
    requires Inv(w) && s.ForeignCreates? && Outside(w, s).Some?
    ensures Inv(Outside(w, s).value)
  {
    var v := Outside(w, s).value;
    assert forall p :: Live(v, p) <==> Live(w, p);
    assert forall i :: Owned(v, i) <==> Owned(w, i);
  }

  lemma VanishKeepsInv(w: World, s: Step)
    requires Inv(w) && (s.LauncherExits? || s.ContainerVanishes? || s.DirectoryVanishes?)
    ensures Inv(Outside(w, s).value)
  {
    var v := Outside(w, s).value;
    ShrinkKeepsQuiet(w, v);
    assert OwnerAgrees(v);
    ShrinkKeepsInv(w, v);
  }

  lemma DirectoryKeepsInv(w: World, s: Step)
    requires Inv(w) && s.DirectoryAppears? && Outside(w, s).Some?
    ensures Inv(Outside(w, s).value)
  {
    var v := Outside(w, s).value;
    assert forall p :: Live(v, p) <==> Live(w, p);
    assert forall i :: Owned(v, i) <==> Owned(w, i);
  }

  lemma OwnerMoveKeepsInv(w: World, s: Step)
    requires Inv(w) && (s.Open? || s.Crash? || s.Abandon?) && Outside(w, s).Some?
    ensures Inv(Outside(w, s).value)
  {
    ShrinkKeepsInv(w, Outside(w, s).value);
  }

  lemma OutsideKinds(w: World, s: Step)
    requires Outside(w, s).Some?
    ensures s.LauncherCreates? || s.ForeignCreates? || s.DirectoryAppears? || s.LauncherExits? || s.ContainerVanishes?
            || s.DirectoryVanishes? || s.Open? || s.Crash? || s.Abandon?
  {
  }

  lemma OutsideKeepsInv(w: World, s: Step)
    requires Inv(w) && Outside(w, s).Some?
    ensures Inv(Outside(w, s).value)
  {
    hide *;
    OutsideKinds(w, s);
    if s.LauncherCreates? {
      CreateKeepsInv(w, s.pid, s.id);
    } else if s.ForeignCreates? {
      ForeignKeepsInv(w, s);
    } else if s.DirectoryAppears? {
      DirectoryKeepsInv(w, s);
    } else if s.Open? || s.Crash? || s.Abandon? {
      OwnerMoveKeepsInv(w, s);
    } else {
      VanishKeepsInv(w, s);
    }
  }

  lemma BeginKeepsInv(w: World, s: Step)
    requires Inv(w) && s.BeginJob? && Launch(w, s).Some?
    ensures Inv(Launch(w, s).value)
  {
    var v := Launch(w, s).value;
    assert Quiet(w);
    assert forall pid :: Live(v, pid) <==> Live(w, pid);
    assert forall i :: Owned(v, i) <==> Owned(w, i);
  }

  lemma SpawnKeepsInv(w: World)
    requires Inv(w) && Launch(w, Spawn).Some?
    ensures Inv(Launch(w, Spawn).value)
  {
    var v := Launch(w, Spawn).value;
    assert forall pid | Live(v, pid) :: pid == w.spawned || Live(w, pid);
    assert forall i :: Owned(v, i) <==> Owned(w, i);
  }

  /** Deleting the row is sound exactly because nothing is left for it to name. */
  lemma ClearKeepsInv(w: World, v: World)
    requires Inv(w) && Quiet(w) && Shrinks(w, v) && v.tables.active.None?
    requires w.tables.active.Some? ==> w.tables.active.value.snapshot !in w.directories
    requires OwnerAgrees(v)
    ensures Inv(v)
  {
    ShrinkKeepsQuiet(w, v);
  }

  lemma ClearUnlaunchedKeepsInv(w: World)
    requires Inv(w) && Launch(w, ClearUnlaunched).Some?
    ensures Inv(Launch(w, ClearUnlaunched).value)
  {
    ClearKeepsInv(w, Launch(w, ClearUnlaunched).value);
  }

  lemma RefusedKeepsInv(w: World, s: Step)
    requires Inv(w) && (s.SpawnFails? || s.ReleaseUnlaunched?) && Launch(w, s).Some?
    ensures Inv(Launch(w, s).value)
  {
    ShrinkKeepsQuiet(w, Launch(w, s).value);
    ShrinkKeepsInv(w, Launch(w, s).value);
  }

  lemma LaunchKinds(w: World, s: Step)
    requires Launch(w, s).Some?
    ensures s.BeginJob? || s.Spawn? || s.ClearUnlaunched? || s.SpawnFails? || s.ReleaseUnlaunched?
  {
  }

  lemma LaunchKeepsInv(w: World, s: Step)
    requires Inv(w) && Launch(w, s).Some?
    ensures Inv(Launch(w, s).value)
  {
    hide *;
    LaunchKinds(w, s);
    match s
    case BeginJob(_, _) => BeginKeepsInv(w, s);
    case Spawn => SpawnKeepsInv(w);
    case ClearUnlaunched => ClearUnlaunchedKeepsInv(w);
    case _ => RefusedKeepsInv(w, s);
  }

  lemma InspectKeepsInv(w: World, id: string)
    requires Inv(w) && Recover(w, Inspect(id)).Some?
    ensures Inv(Recover(w, Inspect(id)).value)
  {
    var v := Recover(w, Inspect(id)).value;
    if v.owner.at.Inspected? {
      assert Owned(w, id);
      assert OnlyContainer(w, w.owner.at.job.token, id);
    }
    ShrinkKeepsQuiet(w, v);
    ShrinkKeepsInv(w, v);
  }

  lemma RememberKeepsInv(w: World)
    requires Inv(w) && Recover(w, Remember).Some?
    ensures Inv(Recover(w, Remember).value)
  {
    var v := Recover(w, Remember).value;
    assert forall pid :: Live(v, pid) <==> Live(w, pid);
    assert forall i :: Owned(v, i) <==> Owned(w, i);
  }

  /** After removing the one container the launch ever made, nothing of it is left. */
  lemma RemoveKeepsInv(w: World)
    requires Inv(w) && Recover(w, Remove).Some?
    ensures Inv(Recover(w, Remove).value)
  {
    var v := Recover(w, Remove).value;
    var row := w.tables.active.value;
    assert OnlyContainer(w, row.token, row.containerId.value);
    assert forall i | Owned(v, i) :: Owned(w, i);
    assert forall pid | Live(v, pid) :: Live(w, pid);
    assert Quiet(v);
    ShrinkKeepsInv(w, v);
  }

  lemma QueryKeepsInv(w: World)
    requires Inv(w) && Recover(w, QueryExists).Some?
    ensures Inv(Recover(w, QueryExists).value)
  {
    var v := Recover(w, QueryExists).value;
    ShrinkKeepsQuiet(w, v);
    if v.owner.at.Removed? {
      var row := w.tables.active.value;
      assert OnlyContainer(w, row.token, row.containerId.value);
      assert Quiet(w);
    }
    ShrinkKeepsInv(w, v);
  }

  lemma ClearJobKeepsInv(w: World)
    requires Inv(w) && Recover(w, ClearJob).Some?
    ensures Inv(Recover(w, ClearJob).value)
  {
    var v := Recover(w, ClearJob).value;
    if v.tables.active.None? {
      ClearKeepsInv(w, v);
    } else {
      ShrinkKeepsInv(w, v);
    }
  }

  lemma ReleaseKeepsInv(w: World, s: Step)
    requires Inv(w) && (s.KillChild? || s.ReadPending? || s.ReleaseSnapshot?) && Recover(w, s).Some?
    ensures Inv(Recover(w, s).value)
  {
    ShrinkKeepsQuiet(w, Recover(w, s).value);
    ShrinkKeepsInv(w, Recover(w, s).value);
  }

  /** The runtime is bound only while no launch is recorded, and nothing else changes. */
  lemma BindKeepsInv(w: World, identity: string)
    requires Inv(w) && Recover(w, BindRuntime(identity)).Some?
    ensures Inv(Recover(w, BindRuntime(identity)).value)
  {
    ShrinkKeepsQuiet(w, Recover(w, BindRuntime(identity)).value);
    ShrinkKeepsInv(w, Recover(w, BindRuntime(identity)).value);
  }

  lemma RecoverKinds(w: World, s: Step)
    requires Recover(w, s).Some?
    ensures s.Inspect? || s.Remember? || s.Remove? || s.QueryExists? || s.ClearJob? || s.KillChild? || s.ReadPending? || s.ReleaseSnapshot?
            || s.BindRuntime?
  {
  }

  lemma RecoverKeepsInv(w: World, s: Step)
    requires Inv(w) && Recover(w, s).Some?
    ensures Inv(Recover(w, s).value)
  {
    hide *;
    RecoverKinds(w, s);
    match s
    case Inspect(id) => InspectKeepsInv(w, id);
    case Remember => RememberKeepsInv(w);
    case Remove => RemoveKeepsInv(w);
    case QueryExists => QueryKeepsInv(w);
    case ClearJob => ClearJobKeepsInv(w);
    case BindRuntime(identity) => BindKeepsInv(w, identity);
    case _ => ReleaseKeepsInv(w, s);
  }

  lemma StepKeepsInv(w: World, s: Step)
    requires Inv(w) && Apply(w, s).Some?
    ensures Inv(Apply(w, s).value)
  {
    if Apply(w, s) == Launch(w, s) {
      LaunchKeepsInv(w, s);
    } else if Apply(w, s) == Recover(w, s) {
      RecoverKeepsInv(w, s);
    } else {
      OutsideKeepsInv(w, s);
    }
  }

  lemma {:induction false} RunKeepsInv(w: World, steps: seq<Step>)
    requires Inv(w) && Run(w, steps).Some?
    ensures Inv(Run(w, steps).value)
    decreases |steps|
  {
    if steps != [] {
      StepKeepsInv(w, steps[0]);
      RunKeepsInv(Apply(w, steps[0]).value, steps[1..]);
    }
  }

  // ---- What every run keeps ----

  ghost predicate Reaches(namespace: string, steps: seq<Step>, w: World) {
    Run(Initial(namespace), steps) == Some(w)
  }

  lemma ReachableInv(namespace: string, steps: seq<Step>, w: World)
    requires Reaches(namespace, steps, w)
    ensures Inv(w)
  {
    RunKeepsInv(Initial(namespace), steps);
  }

  /**
   Whatever the interleaving of owners, crashes, cancellations, launchers and other containers:
   every launcher that may still create a container and every container with one of this store's
   tokens is named by the durable row, and there is at most one of them.
   */
  lemma WorkloadsAlwaysNamed(namespace: string, steps: seq<Step>, w: World)
    requires Reaches(namespace, steps, w)
    ensures WorkloadsNamed(w) && AtMostOneWorkload(w)
  {
    ReachableInv(namespace, steps, w);
  }

  lemma {:induction false} RunAppend(w: World, first: seq<Step>, rest: seq<Step>)
    requires Run(w, first).Some?
    ensures Run(w, first + rest) == Run(Run(w, first).value, rest)
    decreases |first|
  {
    if first == [] {
      assert first + rest == rest;
    } else {
      assert (first + rest)[1..] == first[1..] + rest;
      RunAppend(Apply(w, first[0]).value, first[1..], rest);
    }
  }

  /** A token that was drawn and is no longer (or never became) the row's. */
  predicate Retired(w: World, token: string) {
    token in w.issued && (w.tables.active.Some? ==> w.tables.active.value.token != token)
  }

  lemma RetiredStep(w: World, s: Step, token: string)
    requires Retired(w, token) && Apply(w, s).Some?
    ensures Retired(Apply(w, s).value, token)
  {
  }

  lemma {:induction false} RetiredForever(w: World, steps: seq<Step>, token: string)
    requires Inv(w) && Retired(w, token) && Run(w, steps).Some?
    ensures Retired(Run(w, steps).value, token)
    decreases |steps|
  {
    if steps != [] {
      RetiredStep(w, steps[0], token);
      StepKeepsInv(w, steps[0]);
      RetiredForever(Apply(w, steps[0]).value, steps[1..], token);
    }
  }

  /**
   Clearing a row never orphans its workload: once a token has left the row, nothing carrying it
   runs, at that moment or after any continuation.
   */
  lemma ClearedLaunchNeverReturns(namespace: string, first: seq<Step>, rest: seq<Step>, w: World, v: World, token: string)
    requires Reaches(namespace, first, w) && Retired(w, token)
    requires Run(w, rest) == Some(v)
    ensures forall pid | Live(v, pid) :: v.launchers[pid].token != token
    ensures forall id | id in v.containers :: v.containers[id].token != token
  {
    ReachableInv(namespace, first, w);
    RetiredForever(w, rest, token);
    RunKeepsInv(w, rest);
    forall id | id in v.containers ensures v.containers[id].token != token {
      if v.containers[id].token == token { assert Owned(v, id); }
    }
  }

  /** A second launcher starts only when nothing of any earlier launch can run. */
  lemma SpawnFindsNothingRunning(namespace: string, steps: seq<Step>, w: World)
    requires Reaches(namespace, steps, w) && Apply(w, Spawn).Some?
    ensures Quiet(w)
  {
    ReachableInv(namespace, steps, w);
  }

  /**
   The worker deletes a container only if it carries the row's token, and a leased directory only
   while nothing that mounts it can run; once a row is cleared its directory is gone.
   */
  lemma DeletionsAreOwned(namespace: string, steps: seq<Step>, w: World, s: Step, v: World)
    requires Reaches(namespace, steps, w) && Apply(w, s) == Some(v)
    ensures s.Remove? ==> forall id | id in w.containers && id !in v.containers ::
                            w.tables.active.Some? && w.containers[id].token == w.tables.active.value.token
    ensures (s.ReleaseSnapshot? || s.ReleaseUnlaunched?) ==>
              Quiet(w) && w.tables.active.Some? && w.directories - v.directories <= {w.tables.active.value.snapshot}
    ensures v.tables.active.None? ==> v.leased !! v.directories
  {
    ReachableInv(namespace, steps, w);
    StepKeepsInv(w, s);
    if s.Remove? {
      assert OnlyContainer(w, w.tables.active.value.token, w.tables.active.value.containerId.value);
    }
  }

  // ---- When a crashed launch can be reconciled ----

  /** The intent is durable, but no container was recorded, exists or can still appear. */
  ghost predicate Wedged(w: World) {
    && w.tables.active.Some? && w.tables.active.value.containerId.None?
    && Quiet(w)
    && (w.owner.Down? || w.owner.at.Idle? || w.owner.at.Recovering? || w.owner.at.Present?)
  }

  lemma WedgedOutside(w: World, s: Step)
    requires Inv(w) && Wedged(w) && Outside(w, s).Some?
    ensures Wedged(Outside(w, s).value) && Outside(w, s).value.tables.active == w.tables.active
  {
    var v := Outside(w, s).value;
    OnlyLiveCreates(w, s);
    assert forall pid | Live(v, pid) :: Live(w, pid);
    assert forall i | Owned(v, i) :: Owned(w, i);
  }

  lemma OnlyLiveCreates(w: World, s: Step)
    requires Outside(w, s).Some?
    ensures s.LauncherCreates? ==> Live(w, s.pid)
  {
  }

  lemma WedgedRecover(w: World, s: Step)
    requires Inv(w) && Wedged(w) && Recover(w, s).Some?
    ensures Wedged(Recover(w, s).value) && Recover(w, s).value.tables.active == w.tables.active
  {
    var v := Recover(w, s).value;
    assert s.Inspect? ==> !Owned(w, s.id);
    assert forall pid | Live(v, pid) :: Live(w, pid);
    assert forall i | Owned(v, i) :: Owned(w, i);
  }

  lemma WedgedRefusesLaunch(w: World, s: Step)
    requires Wedged(w)
    ensures Launch(w, s).None?
  {
  }

  lemma WedgedStep(w: World, s: Step)
    requires Inv(w) && Wedged(w) && Apply(w, s).Some?
    ensures Wedged(Apply(w, s).value) && Apply(w, s).value.tables.active == w.tables.active
  {
    hide Inv, Wedged, Outside, Launch, Recover;
    if Apply(w, s) == Launch(w, s) {
      WedgedRefusesLaunch(w, s);
    } else if Apply(w, s) == Recover(w, s) {
      WedgedRecover(w, s);
    } else {
      WedgedOutside(w, s);
    }
  }

  lemma {:induction false} WedgedForever(w: World, steps: seq<Step>)
    requires Inv(w) && Wedged(w) && Run(w, steps).Some?
    ensures Run(w, steps).value.tables.active == w.tables.active
    decreases |steps|
  {
    if steps != [] {
      WedgedStep(w, steps[0]);
      StepKeepsInv(w, steps[0]);
      WedgedForever(Apply(w, steps[0]).value, steps[1..]);
    }
  }

  /** A first launch whose launcher dies before it creates its container. */
  function KilledLaunch(token: string, lease: SnapshotLease): seq<Step> {
    [DirectoryAppears(lease), Open] + [BeginJob(token, lease), Spawn] + [LauncherExits(0), Crash]
  }

  /** The failing input: a new store is blocked for good by one launcher killed too early. */
  lemma KilledLauncherWedges(namespace: string, token: string, lease: SnapshotLease, more: seq<Step>)
    ensures var w := Run(Initial(namespace), KilledLaunch(token, lease));
            && w.Some? && Wedged(w.value) && w.value.owner.Down?
            && (Run(w.value, more).Some? ==> Run(w.value, more).value.tables.active.Some?)
  {
    var w := KilledLaunchRuns(namespace, token, lease);
    hide Apply, Run, KilledLaunch;
    assert Wedged(w);
    if Run(w, more).Some? {
      RunKeepsInv(Initial(namespace), KilledLaunch(token, lease));
      WedgedForever(w, more);
    }
  }

  lemma KilledLaunchRuns(namespace: string, token: string, lease: SnapshotLease) returns (w: World)
    ensures Run(Initial(namespace), KilledLaunch(token, lease)) == Some(w)
    ensures Inv(Initial(namespace))
    ensures w.owner.Down? && w.launchers == map[] && w.containers == map[]
            && w.tables.active == Some(PendingJob(JobName(namespace, 1), token, lease, None))
  {
    var w0 := Initial(namespace);
    var w1 := w0.(directories := w0.directories + {lease});
    var w2 := w1.(owner := Up(None, Idle));
    AppearsStep(w0, lease);
    OpenStep(w1);
    FirstBegin(w2, token, lease);
    hide Apply, Run, Inv;
    var w3 := Apply(w2, BeginJob(token, lease)).value;
    var w4 := SpawnStep(w3);
    ExitStep(w4, 0);
    var w5 := w4.(launchers := w4.launchers - {0});
    CrashStep(w5);
    w := w5.(owner := Down);
    RunTwo(w0, DirectoryAppears(lease), Open);
    RunTwo(w2, BeginJob(token, lease), Spawn);
    RunTwo(w4, LauncherExits(0), Crash);
    RunAppend(w2, [BeginJob(token, lease), Spawn], [LauncherExits(0), Crash]);
    RunAppend(w0, [DirectoryAppears(lease), Open], [BeginJob(token, lease), Spawn] + [LauncherExits(0), Crash]);
    assert KilledLaunch(token, lease)
           == [DirectoryAppears(lease), Open] + ([BeginJob(token, lease), Spawn] + [LauncherExits(0), Crash]);
  }

  lemma AppearsStep(w: World, lease: SnapshotLease)
    requires lease !in w.leased
    ensures Apply(w, DirectoryAppears(lease)) == Some(w.(directories := w.directories + {lease}))
  {
  }

  lemma ExitStep(w: World, pid: nat)
    ensures Apply(w, LauncherExits(pid)) == Some(w.(launchers := w.launchers - {pid}))
  {
  }

  lemma FirstBegin(w: World, token: string, lease: SnapshotLease)
    requires w.owner == Up(None, Idle) && w.tables.active.None? && w.tables.sequence == 0 && w.containers == map[] && w.issued == {}
    requires lease in w.directories
    ensures var job := PendingJob(JobName(w.tables.namespace, 1), token, lease, None);
            Apply(w, BeginJob(token, lease))
            == Some(w.(tables := w.tables.(active := Some(job), sequence := 1), owner := Up(None, Launching(job)),
                       issued := w.issued + {token}, leased := w.leased + {lease}))
  {
  }

  /** The reconciliation a new owner performs when nothing disturbs it. */
  function RecoveryScript(w: World, id: string): seq<Step> {
    [Open, ReadPending, QueryExists]
    + (if id in w.containers then [Inspect(id), Remember, Remove] else [])
    + [ReleaseSnapshot, ClearJob]
  }

  lemma RunTwo(w: World, a: Step, b: Step)
    requires Apply(w, a).Some? && Apply(Apply(w, a).value, b).Some?
    ensures Run(w, [a, b]) == Apply(Apply(w, a).value, b)
  {
    hide Apply;
    assert [a, b][1..] == [b] && [b][1..] == [];
    assert Run(Apply(w, a).value, [b]) == Apply(Apply(w, a).value, b);
  }

  lemma RunThree(w: World, a: Step, b: Step, c: Step)
    requires Apply(w, a).Some? && Apply(Apply(w, a).value, b).Some?
    requires Apply(Apply(Apply(w, a).value, b).value, c).Some?
    ensures Run(w, [a, b, c]) == Apply(Apply(Apply(w, a).value, b).value, c)
  {
    hide Apply;
    assert [a, b, c][1..] == [b, c];
    RunTwo(Apply(w, a).value, b, c);
  }

  lemma RecoveryOpens(w: World, id: string)
    requires Inv(w) && w.owner.Down? && w.tables.active.Some?
    requires if w.tables.active.value.containerId.Some? then w.tables.active.value.containerId.value == id else Owned(w, id)
    ensures var at := if id in w.containers then Present(w.tables.active.value) else Removed(w.tables.active.value);
            Run(w, [Open, ReadPending, QueryExists]) == Some(w.(owner := Up(None, at)))
  {
    if id in w.containers { assert Owned(w, id); }
    RecoveryStart(w, id, w.tables.active.value);
  }

  lemma RecoveryStart(w: World, id: string, job: PendingJob)
    requires w.owner.Down? && w.tables.active == Some(job)
    requires if job.containerId.Some? then job.containerId.value == id
             else id in w.containers && w.containers[id].name == job.name
    ensures var at := if id in w.containers then Present(job) else Removed(job);
            Run(w, [Open, ReadPending, QueryExists]) == Some(w.(owner := Up(None, at)))
  {
    var w1, w2 := w.(owner := Up(None, Idle)), w.(owner := Up(None, Recovering(job)));
    OpenStep(w);
    ReadStep(w1, job);
    QueryStep(w2, job, id);
    hide *;
    RunThree(w, Open, ReadPending, QueryExists);
  }

  lemma OpenStep(w: World)
    requires w.owner.Down?
    ensures Apply(w, Open) == Some(w.(owner := Up(None, Idle)))
  {
  }

  lemma ReadStep(w: World, job: PendingJob)
    requires w.owner == Up(None, Idle) && w.tables.active == Some(job)
    ensures Apply(w, ReadPending) == Some(w.(owner := Up(None, Recovering(job))))
  {
  }

  lemma QueryStep(w: World, job: PendingJob, id: string)
    requires w.owner == Up(None, Recovering(job))
    requires if job.containerId.Some? then job.containerId.value == id
             else id in w.containers && w.containers[id].name == job.name
    ensures Apply(w, QueryExists) == Some(w.(owner := Up(None, if id in w.containers then Present(job) else Removed(job))))
  {
  }

  lemma RecoveryRemoves(w: World, id: string, job: PendingJob)
    requires w.owner == Up(None, Present(job)) && w.tables.active == Some(job)
    requires id in w.containers && w.containers[id] == Container(job.name, job.token)
    requires job.containerId.Some? ==> job.containerId.value == id
    ensures Run(w, [Inspect(id), Remember, Remove])
            == Some(w.(tables := w.tables.(active := Some(job.(containerId := Some(id)))), containers := w.containers - {id},
                       owner := Up(None, Removed(job))))
  {
    var known := w.tables.(active := Some(job.(containerId := Some(id))));
    InspectStep(w, job, id);
    RememberStep(w.(owner := Up(None, Inspected(job, id))), job, id);
    RemoveStep(w.(tables := known, owner := Up(None, Remembered(job, id))), job, id);
    hide *;
    RunThree(w, Inspect(id), Remember, Remove);
  }

  lemma InspectStep(w: World, job: PendingJob, id: string)
    requires w.owner == Up(None, Present(job)) && id in w.containers && w.containers[id] == Container(job.name, job.token)
    requires job.containerId.Some? ==> job.containerId.value == id
    ensures Apply(w, Inspect(id)) == Some(w.(owner := Up(None, Inspected(job, id))))
  {
  }

  lemma RememberStep(w: World, job: PendingJob, id: string)
    requires w.owner == Up(None, Inspected(job, id)) && w.tables.active == Some(job)
    requires job.containerId.Some? ==> job.containerId.value == id
    ensures Apply(w, Remember)
            == Some(w.(tables := w.tables.(active := Some(job.(containerId := Some(id)))), owner := Up(None, Remembered(job, id))))
  {
  }

  lemma RemoveStep(w: World, job: PendingJob, id: string)
    requires w.owner == Up(None, Remembered(job, id))
    ensures Apply(w, Remove) == Some(w.(containers := w.containers - {id}, owner := Up(None, Removed(job))))
  {
  }

  lemma RecoveryCloses(w: World, job: PendingJob)
    requires w.owner == Up(None, Removed(job)) && Matches(w, job)
    ensures Run(w, [ReleaseSnapshot, ClearJob])
            == Some(w.(tables := w.tables.(active := None), directories := w.directories - {job.snapshot}, owner := Up(None, Idle)))
  {
    var w1 := w.(directories := w.directories - {job.snapshot}, owner := Up(None, Released(job)));
    ReleaseStep(w, job);
    ClearStep(w1, job);
    hide *;
    RunTwo(w, ReleaseSnapshot, ClearJob);
  }

  lemma ReleaseStep(w: World, job: PendingJob)
    requires w.owner == Up(None, Removed(job))
    ensures Apply(w, ReleaseSnapshot) == Some(w.(directories := w.directories - {job.snapshot}, owner := Up(None, Released(job))))
  {
  }

  lemma ClearStep(w: World, job: PendingJob)
    requires w.owner == Up(None, Released(job)) && w.tables.active.Some? && SameLaunch(w.tables.active.value, job)
    ensures Apply(w, ClearJob) == Some(w.(tables := w.tables.(active := None), owner := Up(None, Idle)))
  {
  }

  /** The undisturbed reconciliation removes the container, releases the directory and clears the row, and nothing else. */
  lemma RecoveryScriptClears(w: World, id: string)
    requires Inv(w) && w.owner.Down? && w.tables.active.Some?
    requires if w.tables.active.value.containerId.Some? then w.tables.active.value.containerId.value == id else Owned(w, id)
    ensures Run(w, RecoveryScript(w, id))
            == Some(w.(tables := w.tables.(active := None), containers := w.containers - {id},
                       directories := w.directories - {w.tables.active.value.snapshot}, owner := Up(None, Idle)))
  {
    var job := w.tables.active.value;
    var opening := [Open, ReadPending, QueryExists];
    var removing := if id in w.containers then [Inspect(id), Remember, Remove] else [];
    var closing := [ReleaseSnapshot, ClearJob];
    assert RecoveryScript(w, id) == opening + (removing + closing);
    RecoveryOpens(w, id);
    RunAppend(w, opening, removing + closing);
    var w3 := Run(w, opening).value;
    if id in w.containers {
      RowNamesContainer(w, id);
      RecoveryRemoves(w3, id, job);
      RunAppend(w3, removing, closing);
      hide Run, Apply;
      RecoveryCloses(Run(w3, removing).value, job);
    } else {
      assert removing + closing == closing && w.containers - {id} == w.containers;
      hide Run, Apply;
      RecoveryCloses(w3, job);
    }
  }

  lemma RowNamesContainer(w: World, id: string)
    requires Inv(w) && w.tables.active.Some? && id in w.containers
    requires if w.tables.active.value.containerId.Some? then w.tables.active.value.containerId.value == id else Owned(w, id)
    ensures w.containers[id] == Container(w.tables.active.value.name, w.tables.active.value.token)
  {
    assert Owned(w, id);
  }

  /**
   Once no launcher is left running, the pending row of a crashed owner can ever be cleared if and
   only if its container was already recorded or still exists: a launcher that died before
   creating its container leaves the store refusing every later launch.
   */
  lemma RecoverableExactly(namespace: string, steps: seq<Step>, w: World)
    requires Reaches(namespace, steps, w) && w.owner.Down? && w.tables.active.Some?
    requires forall pid :: !Live(w, pid)
    ensures (exists more: seq<Step> :: Run(w, more).Some? && Run(w, more).value.tables.active.None?)
            <==> (w.tables.active.value.containerId.Some? || exists id :: Owned(w, id))
  {
    ReachableInv(namespace, steps, w);
    if w.tables.active.value.containerId.Some? {
      RecoveryScriptClears(w, w.tables.active.value.containerId.value);
    } else if id :| Owned(w, id) {
      RecoveryScriptClears(w, id);
    } else {
      assert Wedged(w);
      forall more: seq<Step> | Run(w, more).Some?
        ensures Run(w, more).value.tables.active.Some?
      {
        WedgedForever(w, more);
      }
    }
  }

  // ---- Progress ----

  /** A launch whose owner dies after the container appeared. */
  function CrashedLaunch(w: World, token: string, lease: SnapshotLease, id: string): seq<Step> {
    [BeginJob(token, lease), Spawn] + [LauncherCreates(w.spawned, id), Crash]
  }

  /** Nothing stands in the way of a launch with this token, lease and container ID. */
  predicate Launchable(w: World, token: string, lease: SnapshotLease, id: string) {
    && w.owner == Up(None, Idle) && w.tables.active.None? && 0 <= w.tables.sequence < MAX_SEQUENCE
    && FreshToken(w, token) && lease in w.directories && id !in w.usedIds
    && !NameTaken(w, JobName(w.tables.namespace, w.tables.sequence + 1))
  }

  lemma LaunchCrashes(w: World, token: string, lease: SnapshotLease, id: string) returns (v: World)
    requires Launchable(w, token, lease, id)
    ensures Run(w, CrashedLaunch(w, token, lease, id)) == Some(v)
    ensures var job := PendingJob(JobName(w.tables.namespace, w.tables.sequence + 1), token, lease, None);
            && v.owner.Down? && v.tables.active == Some(job) && id in v.containers && v.containers[id] == Container(job.name, token)
            && token in v.issued && v.launchers == w.launchers[w.spawned := Launcher(job.name, token, true)]
            && v.containers == w.containers[id := Container(job.name, token)]
  {
    var w1 := BeginStep(w, token, lease, id);
    var w2 := SpawnStep(w1);
    var w3 := CreateStep(w2, w.spawned, id);
    v := w3.(owner := Down);
    CrashStep(w3);
    hide NameTaken, BeginTx;
    hide Apply, Run, Launchable;
    RunTwo(w, BeginJob(token, lease), Spawn);
    RunTwo(w2, LauncherCreates(w.spawned, id), Crash);
    RunAppend(w, [BeginJob(token, lease), Spawn], [LauncherCreates(w.spawned, id), Crash]);
  }

  lemma BeginStep(w: World, token: string, lease: SnapshotLease, id: string) returns (v: World)
    requires Launchable(w, token, lease, id)
    ensures Apply(w, BeginJob(token, lease)) == Some(v)
    ensures var job := PendingJob(JobName(w.tables.namespace, w.tables.sequence + 1), token, lease, None);
            && v == w.(tables := v.tables, owner := Up(None, Launching(job)), issued := w.issued + {token}, leased := w.leased + {lease})
            && v.tables.active == Some(job) && !NameTaken(v, job.name)
  {
    hide NameTaken;
    v := Apply(w, BeginJob(token, lease)).value;
    SameContainers(w, v, JobName(w.tables.namespace, w.tables.sequence + 1));
  }

  lemma SameContainers(w: World, v: World, name: JobName)
    requires w.containers == v.containers
    ensures NameTaken(w, name) == NameTaken(v, name)
  {
  }

  lemma SpawnStep(w: World) returns (v: World)
    requires w.owner.Up? && w.owner.at.Launching?
    ensures Apply(w, Spawn) == Some(v)
    ensures var job := w.owner.at.job;
            && v == w.(launchers := w.launchers[w.spawned := Launcher(job.name, job.token, false)], spawned := w.spawned + 1, owner := v.owner)
            && v.owner.Up? && (NameTaken(w, job.name) == NameTaken(v, job.name))
  {
    hide NameTaken;
    v := Apply(w, Spawn).value;
    SameContainers(w, v, w.owner.at.job.name);
  }

  lemma CreateStep(w: World, pid: nat, id: string) returns (v: World)
    requires pid in w.launchers && !w.launchers[pid].spent && id !in w.usedIds && !NameTaken(w, w.launchers[pid].name)
    ensures Apply(w, LauncherCreates(pid, id)) == Some(v)
    ensures var l := w.launchers[pid];
            v == w.(containers := w.containers[id := Container(l.name, l.token)], usedIds := w.usedIds + {id},
                    launchers := w.launchers[pid := Launcher(l.name, l.token, true)])
  {
    hide NameTaken;
    v := Apply(w, LauncherCreates(pid, id)).value;
  }

  lemma CrashStep(w: World)
    ensures Apply(w, Crash) == Some(w.(owner := Down))
  {
  }

  /**
   Progress: in any reachable world that allows a launch, one whose owner dies after its container
   appeared is reconciled by the next undisturbed owner, which leaves no row and no such container.
   */
  lemma CrashedJobRecovers(w: World, token: string, lease: SnapshotLease, id: string)
    requires Inv(w) && Launchable(w, token, lease, id)
    ensures var crashed := Run(w, CrashedLaunch(w, token, lease, id));
            && crashed.Some? && Inv(crashed.value)
            && var end := Run(crashed.value, RecoveryScript(crashed.value, id));
            && end.Some? && Inv(end.value) && end.value.tables.active.None?
            && forall c | c in end.value.containers :: end.value.containers[c].token != token
  {
    var crashed := LaunchCrashes(w, token, lease, id);
    RunKeepsInv(w, CrashedLaunch(w, token, lease, id));
    assert Owned(crashed, id);
    hide Run, Apply, RecoveryScript, Launchable, CrashedLaunch;
    RecoveryScriptClears(crashed, id);
    RunKeepsInv(crashed, RecoveryScript(crashed, id));
    var end := Run(crashed, RecoveryScript(crashed, id)).value;
    IssuedStays(crashed, RecoveryScript(crashed, id), token);
    forall c | c in end.containers ensures end.containers[c].token != token {
      assert !Owned(end, c);
    }
  }

  lemma {:induction false} IssuedStays(w: World, steps: seq<Step>, token: string)
    requires token in w.issued && Run(w, steps).Some?
    ensures token in Run(w, steps).value.issued
    decreases |steps|
  {
    if steps != [] {
      IssuedStaysStep(w, steps[0], token);
      IssuedStays(Apply(w, steps[0]).value, steps[1..], token);
    }
  }

  lemma IssuedStaysStep(w: World, s: Step, token: string)
    requires token in w.issued && Apply(w, s).Some?
    ensures token in Apply(w, s).value.issued
  {
  }

  // ---- Launchers that outlive their row ----

  lemma SpentStep(w: World, s: Step, pid: nat)
    requires pid < w.spawned && (pid in w.launchers ==> w.launchers[pid].spent) && Apply(w, s).Some?
    ensures var v := Apply(w, s).value;
            pid < v.spawned && (pid in v.launchers ==> pid in w.launchers && v.launchers[pid] == w.launchers[pid])
    ensures forall id :: s != LauncherCreates(pid, id)
  {
    hide BeginTx, ClearTx, RememberContainerTx, BindRuntimeTx, NameTaken;
  }

  /** A launcher that has created its container never creates another, in any continuation. */
  lemma {:induction false} SpentCreatesNothing(w: World, steps: seq<Step>, pid: nat)
    requires pid < w.spawned && (pid in w.launchers ==> w.launchers[pid].spent) && Run(w, steps).Some?
    ensures forall i, id | 0 <= i < |steps| :: steps[i] != LauncherCreates(pid, id)
    ensures var v := Run(w, steps).value; pid in v.launchers ==> pid in w.launchers && v.launchers[pid] == w.launchers[pid]
    decreases |steps|
  {
    hide Apply;
    if steps != [] {
      SpentStep(w, steps[0], pid);
      SpentCreatesNothing(Apply(w, steps[0]).value, steps[1..], pid);
      forall i, id | 0 <= i < |steps| ensures steps[i] != LauncherCreates(pid, id) {
        assert i > 0 ==> steps[i] == steps[1..][i - 1];
      }
    }
  }

  /**
   A launcher can outlive its row: here the owner crashed, the next one reconciled the launch, and the
   process is still there, with no row, no container and nothing more it can create.
   */
  lemma LauncherOutlivesRow(namespace: string, token: string, lease: SnapshotLease, id: string)
    returns (steps: seq<Step>, w: World)
    ensures Reaches(namespace, steps, w)
    ensures w.tables.active.None? && w.containers == map[] && w.launchers == map[0 := Launcher(JobName(namespace, 1), token, true)]
    ensures forall c :: Apply(w, LauncherCreates(0, c)).None?
  {
    var w0 := Initial(namespace);
    var w1 := w0.(directories := w0.directories + {lease});
    var w2 := w1.(owner := Up(None, Idle));
    var opening := [DirectoryAppears(lease), Open];
    AppearsStep(w0, lease);
    OpenStep(w1);
    var crashed := LaunchCrashes(w2, token, lease, id);
    hide Apply;
    RunTwo(w0, DirectoryAppears(lease), Open);
    hide Run, CrashedLaunch, RecoveryScript, Inv;
    var launch, recovery := CrashedLaunch(w2, token, lease, id), RecoveryScript(crashed, id);
    RunAppend(w0, opening, launch);
    InitialInv(namespace);
    RunKeepsInv(w0, opening + launch);
    RecoveryScriptClears(crashed, id);
    RunAppend(w0, opening + launch, recovery);
    steps := opening + launch + recovery;
    w := Run(crashed, recovery).value;
    assert w.containers == map[];
    SpentRefused(w);
  }

  lemma InitialInv(namespace: string)
    ensures Inv(Initial(namespace))
  {
  }

  lemma SpentRefused(w: World)
    requires 0 in w.launchers && w.launchers[0].spent
    ensures forall c :: Apply(w, LauncherCreates(0, c)).None?
  {
  }

  // ---- What the environment may do ----

  ghost predicate Creatable(w: World, id: string, name: JobName) {
    id !in w.usedIds && forall other | other in w.containers :: w.containers[other].name != name
  }

  /**
   A launcher creates its container if and only if it lives, has created none, the ID is new and the
   name is free; strangers create theirs under any name that is free and any token never issued.
   */
  lemma CreationExactly(w: World, pid: nat, id: string, name: JobName, token: string)
    ensures Apply(w, ForeignCreates(id, name, token)) == if Creatable(w, id, name) && token !in w.issued
              then Some(w.(containers := w.containers[id := Container(name, token)], usedIds := w.usedIds + {id})) else None
    ensures Apply(w, LauncherCreates(pid, id))
            == if pid in w.launchers && !w.launchers[pid].spent && Creatable(w, id, w.launchers[pid].name)
            then Some(w.(containers := w.containers[id := Container(w.launchers[pid].name, w.launchers[pid].token)],
                         launchers := w.launchers[pid := Launcher(w.launchers[pid].name, w.launchers[pid].token, true)],
                         usedIds := w.usedIds + {id})) else None
  {
    hide Launch, Recover;
  }

  /** Around the worker anything may exit, vanish or crash at any time, and its owner gives a job up or comes back. */
  lemma LossExactly(w: World, pid: nat, id: string, lease: SnapshotLease)
    ensures Apply(w, Open) == (if w.owner.Down? then Some(w.(owner := Up(None, Idle))) else None)
    ensures Apply(w, Crash) == Some(w.(owner := Down))
    ensures Apply(w, Abandon) == (if w.owner.Up? then Some(w.(owner := Up(w.owner.held, Idle))) else None)
    ensures Apply(w, LauncherExits(pid)) == Some(w.(launchers := w.launchers - {pid}))
    ensures Apply(w, ContainerVanishes(id)) == Some(w.(containers := w.containers - {id}))
    ensures Apply(w, DirectoryAppears(lease)) == (if lease !in w.leased then Some(w.(directories := w.directories + {lease})) else None)
    ensures Apply(w, DirectoryVanishes(lease)) == Some(w.(directories := w.directories - {lease}))
  {
    hide Launch, Recover, NameTaken;
  }
}
