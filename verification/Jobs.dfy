/**
 The worker's durable launch intent (src/gitops/sandbox/jobs.rs): the singleton `active` row, the
 job sequence, the bound runtime identity and the ledger of admitted request nonces. Every
 operation is one SQLite transaction, so each is a function on the tables, and the class performs
 that function in place.
 */
module Jobs {
  import opened Outcomes

  const MAX_SEQUENCE: int := 0x7fff_ffff_ffff_ffff
  const MAX_REQUESTS: nat := 4096

  datatype SandboxError = Unavailable | Failed

  /** "u9-{namespace}-{sequence}"; the two parts determine the text and the text the parts. */
  datatype JobName = JobName(namespace: string, sequence: int)

  /** A snapshot directory, identified by path, device, inode and owner. */
  datatype SnapshotLease = SnapshotLease(root: string, device: nat, inode: nat, uid: nat)

  datatype PendingJob = PendingJob(name: JobName, token: string, snapshot: SnapshotLease,
                                   containerId: Option<string>)

  datatype JobTables = JobTables(namespace: string, sequence: int, active: Option<PendingJob>,
                                 requests: set<string>, runtime: Option<string>)

  /** Same launch: the comparison every row update makes (`name=?1 AND token=?2`). */
  predicate SameLaunch(row: PendingJob, job: PendingJob) {
    row.name == job.name && row.token == job.token
  }

  /** Inserts the singleton row; a row already there, a failed lease or an exhausted sequence refuses. */
  function BeginTx(t: JobTables, token: string, lease: Option<SnapshotLease>): Result<(JobTables, PendingJob), SandboxError> {
    if t.sequence >= MAX_SEQUENCE || t.sequence + 1 <= 0 || lease.None? || t.active.Some? then
      Err(Unavailable)
    else
      var job := PendingJob(JobName(t.namespace, t.sequence + 1), token, lease.value, None);
      Ok((t.(active := Some(job), sequence := t.sequence + 1), job))
  }

  function ClearTx(t: JobTables, job: PendingJob): Result<JobTables, SandboxError> {
    if t.active.Some? && SameLaunch(t.active.value, job) then Ok(t.(active := None)) else Err(Unavailable)
  }

  function RememberContainerTx(t: JobTables, job: PendingJob, id: string): Result<JobTables, SandboxError> {
    if t.active.Some? && SameLaunch(t.active.value, job)
       && (t.active.value.containerId.None? || t.active.value.containerId.value == id)
    then Ok(t.(active := Some(t.active.value.(containerId := Some(id)))))
    else Err(Unavailable)
  }

  function ClaimRequestTx(t: JobTables, nonce: string): Result<JobTables, SandboxError> {
    if |t.requests| >= MAX_REQUESTS then Err(Unavailable)
    else if nonce in t.requests then Err(Failed)
    else Ok(t.(requests := t.requests + {nonce}))
  }

  function BindRuntimeTx(t: JobTables, identity: string): Result<JobTables, SandboxError> {
    match t.runtime
    case Some(stored) => if stored == identity then Ok(t) else Err(Unavailable)
    case None => if t.active.Some? then Err(Unavailable) else Ok(t.(runtime := Some(identity)))
  }

  /** One owner's connection to the tables; the owner lock makes it the only writer. */
  class JobStore {
    var namespace: string
    var sequence: int
    var active: Option<PendingJob>
    var requests: set<string>
    var runtime: Option<string>

    ghost function Tables(): JobTables
      reads this
    {
      JobTables(namespace, sequence, active, requests, runtime)
    }

    /** Reopening keeps the rows another owner left; only a new database draws a namespace. */
    constructor (existing: Option<JobTables>, drawn: string)
      ensures Tables() == if existing.Some? then existing.value else JobTables(drawn, 0, None, {}, None)
    {
      match existing
      case Some(t) =>
        namespace, sequence, active, requests, runtime := t.namespace, t.sequence, t.active, t.requests, t.runtime;
      case None =>
        namespace, sequence, active, requests, runtime := drawn, 0, None, {}, None;
    }

    method ClaimRequest(nonce: string) returns (r: Result<(), SandboxError>)
      modifies this`requests
      ensures match ClaimRequestTx(old(Tables()), nonce)
              case Ok(t) => r == Ok(()) && Tables() == t
              case Err(e) => r == Err(e) && Tables() == old(Tables())
    {
      if |requests| >= MAX_REQUESTS { return Err(Unavailable); }
      if nonce in requests { return Err(Failed); }
      requests := requests + {nonce};
      return Ok(());
    }

    method BindRuntime(identity: string) returns (r: Result<(), SandboxError>)
      modifies this`runtime
      ensures match BindRuntimeTx(old(Tables()), identity)
              case Ok(t) => r == Ok(()) && Tables() == t
              case Err(e) => r == Err(e) && Tables() == old(Tables())
    {
      match runtime {
        case Some(stored) => if stored == identity { return Ok(()); } else { return Err(Unavailable); }
        case None =>
          var pending := Pending();
          if pending.Some? { return Err(Unavailable); }
          runtime := Some(identity);
          return Ok(());
      }
    }

    method Pending() returns (job: Option<PendingJob>)
      ensures job == active
    {
      job := active;
    }

    method Begin(token: string, lease: Option<SnapshotLease>) returns (r: Result<PendingJob, SandboxError>)
      modifies this`active, this`sequence
      ensures match BeginTx(old(Tables()), token, lease)
              case Ok(out) => r == Ok(out.1) && Tables() == out.0
              case Err(e) => r == Err(e) && Tables() == old(Tables())
    {
      if sequence >= MAX_SEQUENCE || sequence + 1 <= 0 { return Err(Unavailable); }
      if lease.None? { return Err(Unavailable); }
      var job := PendingJob(JobName(namespace, sequence + 1), token, lease.value, None);
      if active.Some? { return Err(Unavailable); }
      active := Some(job);
      sequence := sequence + 1;
      return Ok(job);
    }

    method Clear(job: PendingJob) returns (r: Result<(), SandboxError>)
      modifies this`active
      ensures match ClearTx(old(Tables()), job)
              case Ok(t) => r == Ok(()) && Tables() == t
              case Err(e) => r == Err(e) && Tables() == old(Tables())
    {
      if active.None? || !SameLaunch(active.value, job) { return Err(Unavailable); }
      active := None;
      return Ok(());
    }

    method RememberContainer(job: PendingJob, id: string) returns (r: Result<(), SandboxError>)
      modifies this`active
      ensures match RememberContainerTx(old(Tables()), job, id)
              case Ok(t) => r == Ok(()) && Tables() == t
              case Err(e) => r == Err(e) && Tables() == old(Tables())
    {
      if active.None? || !SameLaunch(active.value, job)
         || (active.value.containerId.Some? && active.value.containerId.value != id) { return Err(Unavailable); }
      active := Some(active.value.(containerId := Some(id)));
      return Ok(());
    }
  }

  // ---- What each transaction accepts, and what it leaves alone ----

  /** A nonce is claimed if and only if it is new and fewer than 4096 are claimed; the limit is checked first. */
  lemma ClaimsExactly(t: JobTables, nonce: string)
    ensures var r := ClaimRequestTx(t, nonce);
            && (r.Ok? <==> nonce !in t.requests && |t.requests| < 4096)
            && (r.Ok? ==> r.value.requests == t.requests + {nonce} && |r.value.requests| == |t.requests| + 1
                          && r.value.active == t.active && r.value.sequence == t.sequence
                          && r.value.runtime == t.runtime && r.value.namespace == t.namespace)
            && (r.Err? ==> (r.error == Unavailable <==> |t.requests| >= 4096))
            && (r.Ok? ==> ClaimRequestTx(r.value, nonce).Err?)
  {
  }

  /** The identity a worker may run under: the bound one, or any while none is bound and nothing is pending. */
  lemma BindsExactly(t: JobTables, identity: string)
    ensures var r := BindRuntimeTx(t, identity);
            && (r.Ok? <==> t.runtime == Some(identity) || (t.runtime == None && t.active == None))
            && (r.Ok? ==> r.value == JobTables(t.namespace, t.sequence, t.active, t.requests, Some(identity)))
            && (r.Err? ==> r.error == Unavailable)
  {
  }

  /** An intent is recorded if and only if none is pending, a snapshot is leased and a positive 63-bit sequence is left. */
  lemma BeginsExactly(t: JobTables, token: string, lease: Option<SnapshotLease>)
    ensures var r := BeginTx(t, token, lease);
            && (r.Ok? <==> t.active == None && lease.Some? && 1 <= t.sequence + 1 <= 0x7fff_ffff_ffff_ffff)
            && (r.Ok? ==> && r.value.1 == PendingJob(JobName(t.namespace, t.sequence + 1), token, lease.value, None)
                          && r.value.0 == JobTables(t.namespace, t.sequence + 1, Some(r.value.1), t.requests, t.runtime))
            && (r.Err? ==> r.error == Unavailable)
  {
  }

  /** Only the launch the row names is cleared or given its container, and a recorded container is never exchanged. */
  lemma RowUpdatesExactly(t: JobTables, job: PendingJob, id: string)
    ensures var (cleared, known) := (ClearTx(t, job), RememberContainerTx(t, job, id));
            var named := t.active.Some? && t.active.value.name == job.name && t.active.value.token == job.token;
            && cleared == (if named then Ok(JobTables(t.namespace, t.sequence, None, t.requests, t.runtime)) else Err(Unavailable))
            && (known.Ok? <==> named && (t.active.value.containerId == None || t.active.value.containerId == Some(id)))
            && (known.Ok? ==> known.value == JobTables(t.namespace, t.sequence,
                  Some(PendingJob(job.name, job.token, t.active.value.snapshot, Some(id))), t.requests, t.runtime))
            && (known.Err? ==> known.error == Unavailable)
  {
  }
}
