/**
 The worker's own code (src/gitops/sandbox/runner.rs): `recover_pending`, `cleanup` and
 `validate` as they run against the job store. What the runtime, the clock and the filesystem
 answer is an input; the interleavings are in SandboxProtocol.
 */
module Runner {
  import opened Outcomes
  import opened Jobs
  import Protocol = SandboxProtocol

  /** The three fields of `podman inspect` that decide ownership. */
  datatype Inspection = Inspection(id: string, name: JobName, token: string)

  /** What one reconciliation is told; None stands for a control command that failed. */
  datatype Answers = Answers(binaryPinned: bool, identity: Option<string>, stillPinned: bool, existsCode: Option<int>,
                             inspected: Option<Inspection>, removed: bool, snapshotRemoved: bool)

  predicate IsHexDigit(c: char) {
    '0' <= c <= '9' || 'a' <= c <= 'f' || 'A' <= c <= 'F'
  }

  predicate ContainerId(id: string) {
    |id| == 64 && forall i | 0 <= i < |id| :: IsHexDigit(id[i])
  }

  function OwnedContainerId(inspected: Option<Inspection>, name: JobName, token: string): Option<string> {
    match inspected
    case None => None
    case Some(i) => if ContainerId(i.id) && i.name == name && i.token == token then Some(i.id) else None
  }

  /** The inspected container counts if and only if its ID is 64 hexadecimal digits and it carries the job's name and token. */
  lemma OwnedExactly(i: Inspection, name: JobName, token: string)
    ensures var owned := OwnedContainerId(Some(i), name, token);
            && (owned.Some? <==> && |i.id| == 64 && (forall k | 0 <= k < 64 :: i.id[k] in "0123456789abcdefABCDEF")
                                 && i.name == name && i.token == token)
            && (owned.Some? ==> owned.value == i.id)
    ensures OwnedContainerId(None, name, token).None?
  {
    hide ContainerId;
    if |i.id| == 64 {
      forall k | 0 <= k < 64 ensures IsHexDigit(i.id[k]) <==> i.id[k] in "0123456789abcdefABCDEF" {
        HexDigitExactly(i.id[k]);
      }
      ContainerIdExactly(i.id);
    } else {
      ContainerIdExactly(i.id);
    }
  }

  lemma ContainerIdExactly(id: string)
    ensures ContainerId(id) <==> |id| == 64 && forall k | 0 <= k < 64 :: IsHexDigit(id[k])
  {
  }

  lemma HexDigitExactly(c: char)
    ensures IsHexDigit(c) <==> c in "0123456789abcdefABCDEF"
  {
    var digits := "0123456789abcdefABCDEF";
    if '0' <= c <= '9' { assert digits[c as int - '0' as int] == c; }
    if 'a' <= c <= 'f' { assert digits[10 + c as int - 'a' as int] == c; }
    if 'A' <= c <= 'F' { assert digits[16 + c as int - 'A' as int] == c; }
  }

  /** The container this reconciliation may treat as gone or may remove. */
  predicate Identifies(job: PendingJob, a: Answers) {
    || (a.existsCode == Some(1) && job.containerId.Some?)
    || (&& a.existsCode == Some(0) && a.removed
        && var id := OwnedContainerId(a.inspected, job.name, job.token);
           id.Some? && (job.containerId.Some? ==> job.containerId == id))
  }

  /** The tables one reconciliation leaves. */
  function RecoverTx(t: JobTables, a: Answers): (JobTables, Result<(), SandboxError>) {
    if !a.binaryPinned || a.identity.None? then (t, Err(Unavailable)) else
    match BindRuntimeTx(t, a.identity.value)
    case Err(e) => (t, Err(e))
    case Ok(bound) =>
      if bound.active.None? then (bound, Ok(())) else
      var job := bound.active.value;
      if !a.stillPinned then (bound, Err(Unavailable))
      else if a.existsCode == Some(1) && job.containerId.Some? then ReleaseTx(bound, job, a)
      else if a.existsCode != Some(0) then (bound, Err(Failed))
      else
        var id := OwnedContainerId(a.inspected, job.name, job.token);
        if id.None? || (job.containerId.Some? && job.containerId != id) then (bound, Err(Failed)) else
        match RememberContainerTx(bound, job, id.value)
        case Err(e) => (bound, Err(e))
        case Ok(known) => if !a.removed then (known, Err(Failed)) else ReleaseTx(known, job, a)
  }

  function ReleaseTx(t: JobTables, job: PendingJob, a: Answers): (JobTables, Result<(), SandboxError>) {
    if !a.snapshotRemoved then (t, Err(Unavailable)) else
    match ClearTx(t, job)
    case Err(e) => (t, Err(e))
    case Ok(cleared) => (cleared, Ok(()))
  }

  /**
   A row is cleared exactly when its container was identified as this launch's own (or a recorded
   one is gone), removed, and its snapshot released; otherwise the launch stays recorded.
   */
  lemma RecoverClearsExactly(t: JobTables, a: Answers)
    requires t.active.Some?
    ensures RecoverTx(t, a).0.active.None? <==>
              a.binaryPinned && a.identity.Some? && t.runtime == a.identity && a.stillPinned
              && Identifies(t.active.value, a) && a.snapshotRemoved
    ensures RecoverTx(t, a).1.Ok? <==> RecoverTx(t, a).0.active.None?
    ensures RecoverTx(t, a).0.active.Some? ==> SameLaunch(RecoverTx(t, a).0.active.value, t.active.value)
    ensures RecoverTx(t, a).0 == t.(active := RecoverTx(t, a).0.active)
  {
  }

  /** A remembered container ID is never replaced by another. */
  lemma RecoverKeepsKnownContainer(t: JobTables, a: Answers)
    requires t.active.Some? && t.active.value.containerId.Some? && RecoverTx(t, a).0.active.Some?
    ensures RecoverTx(t, a).0 == t
  {
  }

  /** Reconciliation leaves namespace, sequence and claimed requests alone and never starts a launch. */
  lemma RecoverFrame(t: JobTables, a: Answers)
    ensures var u := RecoverTx(t, a).0;
            && u.namespace == t.namespace && u.sequence == t.sequence && u.requests == t.requests
            && (t.active.None? ==> u.active.None?)
  {
  }

  /**
   Kills and reaps the held child, then reconciles: the tables and the held job it leaves. Ownership is
   dropped only by a reconciliation that succeeded.
   */
  function CleanupTx(t: JobTables, held: Option<Protocol.Held>, killed: bool, a: Answers)
    : (JobTables, Option<Protocol.Held>, Result<(), SandboxError>)
  {
    if held.None? then
      var (u, r) := RecoverTx(t, a);
      (u, None, r)
    else if held.value.child.Some? && !killed then (t, held, Err(Failed))
    else
      var reaped := Some(held.value.(child := None));
      if t.active.None? || t.active.value.name != held.value.name then (t, reaped, Err(Failed))
      else
        var (u, r) := RecoverTx(t, a);
        (u, if r.Ok? then None else reaped, r)
  }

  /** What one validation is told on the way from its first cleanup to its second. */
  datatype Attempt = Attempt(preflight: bool, token: string, lease: Option<SnapshotLease>, spawned: Option<nat>,
                             unlaunchedReleased: bool)

  /** One validation: clean up, record the launch, start it, collect it, clean up again. */
  function ValidateTx<Receipt>(t: JobTables, held: Option<Protocol.Held>, killedBefore: bool, before: Answers, attempt: Attempt,
                               finished: Result<Receipt, SandboxError>, killedAfter: bool, after: Answers)
    : (JobTables, Option<Protocol.Held>, Result<Receipt, SandboxError>)
  {
    var (u, left, cleaned) := CleanupTx(t, held, killedBefore, before);
    if cleaned.Err? then (u, left, Err(cleaned.error))
    else if !attempt.preflight then (u, left, Err(Unavailable)) else
    match BeginTx(u, attempt.token, attempt.lease)
    case Err(e) => (u, left, Err(e))
    case Ok((begun, job)) =>
      if attempt.spawned.None? then
        (if attempt.unlaunchedReleased then begun.(active := None) else begun, left, Err(Unavailable))
      else
        var (v, kept, done) := CleanupTx(begun, Some(Protocol.Held(job.name, attempt.spawned)), killedAfter, after);
        (v, kept, if done.Ok? then finished else Err(done.error))
  }

  /** After a successful cleanup nothing is held and nothing is pending. */
  lemma CleanupClears(t: JobTables, held: Option<Protocol.Held>, killed: bool, a: Answers)
    ensures var (u, left, r) := CleanupTx(t, held, killed, a);
            && (r.Ok? ==> u.active.None? && left.None?)
            && (r.Ok? && t.active.Some? ==> Identifies(t.active.value, a) && a.snapshotRemoved)
            && u.namespace == t.namespace && u.sequence == t.sequence && u.requests == t.requests
  {
    if t.active.Some? { RecoverClearsExactly(t, a); }
    hide Identifies, OwnedContainerId;
    RecoverFrame(t, a);
  }

  /**
   A receipt escapes only after this launch's own container was found under its token and removed, its
   snapshot released and its row cleared; a launch that is not finished so keeps its row.
   */
  lemma ReceiptNeedsRemoval<Receipt>(t: JobTables, held: Option<Protocol.Held>, killedBefore: bool, before: Answers,
                                     attempt: Attempt, finished: Result<Receipt, SandboxError>, killedAfter: bool, after: Answers)
    ensures var (v, kept, r) := ValidateTx(t, held, killedBefore, before, attempt, finished, killedAfter, after);
            && v.namespace == t.namespace && v.requests == t.requests
            && (v.sequence == t.sequence || v.sequence == t.sequence + 1)
            && (r.Ok? ==> r == finished && kept.None? && v.active.None? && v.sequence == t.sequence + 1)
            && (r.Ok? ==> after.existsCode == Some(0) && after.removed && after.snapshotRemoved
                          && OwnedContainerId(after.inspected, JobName(v.namespace, v.sequence), attempt.token).Some?)
            && (v.active.Some? && v.sequence == t.sequence + 1 ==>
                  v.active.value.name == JobName(v.namespace, v.sequence) && v.active.value.token == attempt.token)
  {
    hide RecoverTx, OwnedContainerId;
    CleanupClears(t, held, killedBefore, before);
    var (u, left, cleaned) := CleanupTx(t, held, killedBefore, before);
    var begun := BeginTx(u, attempt.token, attempt.lease);
    if cleaned.Ok? && attempt.preflight && begun.Ok? && attempt.spawned.Some? {
      RecoverClearsExactly(begun.value.0, after);
      CleanupClears(begun.value.0, Some(Protocol.Held(begun.value.1.name, attempt.spawned)), killedAfter, after);
    }
  }

  // ---- What each operation answers, exactly ----

  /** The checks in front of the row: the binary, and a runtime that is the bound one or may be bound. */
  predicate MayProceed(t: JobTables, a: Answers) {
    && a.binaryPinned && a.identity.Some?
    && (t.runtime == a.identity || (t.runtime.None? && t.active.None?))
  }

  /** With no row a reconciliation binds the runtime and succeeds, or is refused by those checks alone. */
  lemma NothingPendingSucceeds(t: JobTables, a: Answers)
    requires t.active.None?
    ensures a.binaryPinned && a.identity.Some? && (t.runtime.None? || t.runtime == a.identity) ==>
              RecoverTx(t, a) == (t.(runtime := a.identity), Ok(()))
    ensures !(a.binaryPinned && a.identity.Some? && (t.runtime.None? || t.runtime == a.identity)) ==>
              RecoverTx(t, a) == (t, Err(Unavailable))
  {
  }

  /** What a reconciliation that did not clear the row has recorded, and which error it reports. */
  lemma UnfinishedRecovery(t: JobTables, a: Answers)
    requires t.active.Some? && RecoverTx(t, a).1.Err?
    ensures var own := OwnedContainerId(a.inspected, t.active.value.name, t.active.value.token);
            var found := MayProceed(t, a) && a.stillPinned && a.existsCode == Some(0) && own.Some?
                         && (t.active.value.containerId.Some? ==> t.active.value.containerId == own);
            && RecoverTx(t, a).0 == (if found then t.(active := Some(t.active.value.(containerId := own))) else t)
            && (RecoverTx(t, a).1.error == Failed <==>
                  MayProceed(t, a) && a.stillPinned && !Identifies(t.active.value, a))
  {
  }

  /** A reconciliation succeeds if and only if its checks pass and the row, if there is one, can be cleared. */
  predicate Recovers(t: JobTables, a: Answers) {
    MayProceed(t, a) && (t.active.Some? ==> a.stillPinned && Identifies(t.active.value, a) && a.snapshotRemoved)
  }

  lemma RecoverSucceedsExactly(t: JobTables, a: Answers)
    ensures RecoverTx(t, a).1.Ok? <==> Recovers(t, a)
    ensures Recovers(t, a) ==> RecoverTx(t, a).0 == t.(active := None, runtime := a.identity)
  {
    hide Identifies;
    if t.active.Some? { RecoverClearsExactly(t, a); } else { NothingPendingSucceeds(t, a); }
  }

  /** What is held was reaped and is what the row records. */
  predicate Reapable(t: JobTables, held: Option<Protocol.Held>, killed: bool) {
    held.Some? ==>
      (held.value.child.None? || killed) && t.active.Some? && t.active.value.name == held.value.name
  }

  /** A cleanup succeeds if and only if the child is gone, the row is the held job's, and the reconciliation succeeds. */
  lemma CleanupSucceedsExactly(t: JobTables, held: Option<Protocol.Held>, killed: bool, a: Answers)
    ensures var (u, left, r) := CleanupTx(t, held, killed, a);
            && (r.Ok? <==> Reapable(t, held, killed) && Recovers(t, a))
            && (r.Ok? ==> u == t.(active := None, runtime := a.identity) && left.None?)
            && (r.Err? && held.Some? ==>
                  left == if held.value.child.Some? && !killed then held else Some(held.value.(child := None)))
            && (r.Err? && !Reapable(t, held, killed) ==> u == t && r == Err(Failed))
            && (r.Err? && Reapable(t, held, killed) ==> u == RecoverTx(t, a).0 && r == RecoverTx(t, a).1)
  {
    hide Recovers;
    RecoverSucceedsExactly(t, a);
  }

  /** The first cleanup succeeds, the worker is ready, and the store has a sequence and a lease to record. */
  predicate Starts(t: JobTables, held: Option<Protocol.Held>, killed: bool, before: Answers, attempt: Attempt) {
    && Reapable(t, held, killed) && Recovers(t, before) && attempt.preflight && attempt.lease.Some?
    && 0 < t.sequence + 1 <= MAX_SEQUENCE
  }

  /** The launch that a validation records. */
  function Recorded(t: JobTables, attempt: Attempt): PendingJob
    requires attempt.lease.Some?
  {
    PendingJob(JobName(t.namespace, t.sequence + 1), attempt.token, attempt.lease.value, None)
  }

  /** Behind a launch: its child was reaped, and its own container found, removed and released with the runtime unchanged. */
  predicate Finishes(t: JobTables, before: Answers, attempt: Attempt, killed: bool, after: Answers)
    requires attempt.lease.Some?
  {
    && attempt.spawned.Some? && killed && after.binaryPinned && after.identity.Some? && after.identity == before.identity
    && after.stillPinned && after.existsCode == Some(0) && after.removed && after.snapshotRemoved
    && OwnedContainerId(after.inspected, Recorded(t, attempt).name, attempt.token).Some?
  }

  lemma LaunchTables(t: JobTables, held: Option<Protocol.Held>, killed: bool, before: Answers, attempt: Attempt)
    requires Reapable(t, held, killed) && Recovers(t, before)
    ensures var u := CleanupTx(t, held, killed, before).0;
            && CleanupTx(t, held, killed, before).1.None?
            && (if attempt.lease.Some? && 0 < t.sequence + 1 <= MAX_SEQUENCE
                then BeginTx(u, attempt.token, attempt.lease)
                     == Ok((t.(active := Some(Recorded(t, attempt)), runtime := before.identity, sequence := t.sequence + 1),
                            Recorded(t, attempt)))
                else BeginTx(u, attempt.token, attempt.lease) == Err(Unavailable))
  {
    hide CleanupTx, Recovers, Reapable;
    CleanupSucceedsExactly(t, held, killed, before);
  }

  lemma SecondCleanup(t: JobTables, before: Answers, attempt: Attempt, killed: bool, after: Answers)
    requires attempt.lease.Some? && attempt.spawned.Some? && before.identity.Some?
    ensures var begun := t.(active := Some(Recorded(t, attempt)), runtime := before.identity, sequence := t.sequence + 1);
            CleanupTx(begun, Some(Protocol.Held(Recorded(t, attempt).name, attempt.spawned)), killed, after).2.Ok?
            <==> Finishes(t, before, attempt, killed, after)
  {
    hide CleanupTx, OwnedContainerId;
    var begun := t.(active := Some(Recorded(t, attempt)), runtime := before.identity, sequence := t.sequence + 1);
    CleanupSucceedsExactly(begun, Some(Protocol.Held(Recorded(t, attempt).name, attempt.spawned)), killed, after);
  }

  /**
   One validation, exactly: a launch is recorded if and only if the first cleanup succeeds, the worker
   is ready and there is a sequence and a lease; what the workload came to is returned if and only if
   that launch was started and then cleaned up. A refused spawn leaves no row once its snapshot is gone.
   */
  lemma ValidateExactly<Receipt>(t: JobTables, held: Option<Protocol.Held>, killedBefore: bool, before: Answers,
                                 attempt: Attempt, finished: Result<Receipt, SandboxError>, killedAfter: bool, after: Answers)
    ensures var (v, kept, r) := ValidateTx(t, held, killedBefore, before, attempt, finished, killedAfter, after);
            && (v.sequence == t.sequence + 1 <==> Starts(t, held, killedBefore, before, attempt))
            && (Starts(t, held, killedBefore, before, attempt) && Finishes(t, before, attempt, killedAfter, after) ==>
                  r == finished && kept.None? && v == t.(runtime := before.identity, sequence := t.sequence + 1, active := None))
            && (r.Ok? <==> Starts(t, held, killedBefore, before, attempt) && Finishes(t, before, attempt, killedAfter, after) && finished.Ok?)
            && (Starts(t, held, killedBefore, before, attempt) && attempt.spawned.None? ==>
                  && r == Err(Unavailable) && kept.None?
                  && v == t.(runtime := before.identity, sequence := t.sequence + 1,
                             active := if attempt.unlaunchedReleased then None else Some(Recorded(t, attempt))))
            && (Starts(t, held, killedBefore, before, attempt) && attempt.spawned.Some?
                && !Finishes(t, before, attempt, killedAfter, after) ==>
                  && r.Err? && v.active.Some? && SameLaunch(v.active.value, Recorded(t, attempt))
                  && kept.Some? && kept.value.name == Recorded(t, attempt).name)
  {
    hide RecoverTx, OwnedContainerId, CleanupTx, Recovers, Reapable, Finishes, ValidateTx, Starts;
    ValidateUnfolds(t, held, killedBefore, before, attempt, finished, killedAfter, after);
    if Starts(t, held, killedBefore, before, attempt) {
      StartsHolds(t, held, killedBefore, before, attempt);
      var begun := t.(active := Some(Recorded(t, attempt)), runtime := before.identity, sequence := t.sequence + 1);
      if Finishes(t, before, attempt, killedAfter, after) { FinishedIdentity(t, before, attempt, killedAfter, after); }
      if attempt.spawned.Some? {
        var child := Some(Protocol.Held(Recorded(t, attempt).name, attempt.spawned));
        SecondCleanup(t, before, attempt, killedAfter, after);
        CleanupSucceedsExactly(begun, child, killedAfter, after);
        CleanupClears(begun, child, killedAfter, after);
        CleanupKeepsLaunch(begun, child, killedAfter, after);
      }
    }
  }

  lemma StartsHolds(t: JobTables, held: Option<Protocol.Held>, killed: bool, before: Answers, attempt: Attempt)
    requires Starts(t, held, killed, before, attempt)
    ensures Reapable(t, held, killed) && Recovers(t, before) && before.identity.Some? && attempt.lease.Some?
  {
  }

  /** Up to the second cleanup. */
  lemma ValidateUnfolds<Receipt>(t: JobTables, held: Option<Protocol.Held>, killedBefore: bool, before: Answers,
                                 attempt: Attempt, finished: Result<Receipt, SandboxError>, killedAfter: bool, after: Answers)
    ensures var (v, kept, r) := ValidateTx(t, held, killedBefore, before, attempt, finished, killedAfter, after);
            && (!Starts(t, held, killedBefore, before, attempt) ==> r.Err? && v.sequence == t.sequence)
            && (Starts(t, held, killedBefore, before, attempt) ==>
                  var begun := t.(active := Some(Recorded(t, attempt)), runtime := before.identity, sequence := t.sequence + 1);
                  if attempt.spawned.None? then
                    r == Err(Unavailable) && kept.None? && v == if attempt.unlaunchedReleased then begun.(active := None) else begun
                  else
                    var (u, left, done) := CleanupTx(begun, Some(Protocol.Held(Recorded(t, attempt).name, attempt.spawned)), killedAfter, after);
                    v == u && kept == left && r == if done.Ok? then finished else Err(done.error))
  {
    hide RecoverTx, OwnedContainerId, CleanupTx, Recovers, Reapable, BeginTx;
    CleanupSucceedsExactly(t, held, killedBefore, before);
    CleanupClears(t, held, killedBefore, before);
    var (u, left, cleaned) := CleanupTx(t, held, killedBefore, before);
    var all := ValidateTx(t, held, killedBefore, before, attempt, finished, killedAfter, after);
    if !(Reapable(t, held, killedBefore) && Recovers(t, before)) {
      assert all == (u, left, Err(cleaned.error));
    } else {
      LaunchTables(t, held, killedBefore, before, attempt);
      if !Starts(t, held, killedBefore, before, attempt) {
        assert all == (u, left, Err(Unavailable));
      }
    }
  }

  lemma FinishedIdentity(t: JobTables, before: Answers, attempt: Attempt, killed: bool, after: Answers)
    requires attempt.lease.Some? && Finishes(t, before, attempt, killed, after)
    ensures after.identity == before.identity && attempt.spawned.Some?
  {
  }

  /** A cleanup that fails keeps the launch in its row and in memory. */
  lemma CleanupKeepsLaunch(t: JobTables, held: Option<Protocol.Held>, killed: bool, a: Answers)
    requires t.active.Some? && held.Some?
    ensures var (u, left, r) := CleanupTx(t, held, killed, a);
            r.Err? ==> u.active.Some? && SameLaunch(u.active.value, t.active.value) && left.Some? && left.value.name == held.value.name
  {
    hide RecoverTx;
    RecoverClearsExactly(t, a);
  }

  /** One serialized worker; `active` is the job it holds in memory. */
  class RootlessValidator {
    const jobs: JobStore
    var active: Option<Protocol.Held>

    constructor (jobs: JobStore)
      ensures this.jobs == jobs && active.None?
    {
      this.jobs := jobs;
      active := None;
    }

    method RecoverPending(a: Answers) returns (r: Result<(), SandboxError>)
      modifies jobs
      ensures (jobs.Tables(), r) == RecoverTx(old(jobs.Tables()), a)
    {
      if !a.binaryPinned { return Err(Unavailable); }
      if a.identity.None? { return Err(Unavailable); }
      r := jobs.BindRuntime(a.identity.value);
      if r.Err? { return; }
      var pending := jobs.Pending();
      if pending.None? { return Ok(()); }
      var job := pending.value;
      if !a.stillPinned { return Err(Unavailable); }
      if a.existsCode == Some(1) && job.containerId.Some? {
        // A recorded container that is gone needs no removal.
      } else if a.existsCode == Some(0) {
        var id := OwnedContainerId(a.inspected, job.name, job.token);
        if id.None? { return Err(Failed); }
        if job.containerId.Some? && job.containerId != id { return Err(Failed); }
        r := jobs.RememberContainer(job, id.value);
        if r.Err? { return; }
        if !a.removed { return Err(Failed); }
      } else {
        return Err(Failed);
      }
      if !a.snapshotRemoved { return Err(Unavailable); }
      r := jobs.Clear(job);
    }

    method Cleanup(killed: bool, a: Answers) returns (r: Result<(), SandboxError>)
      modifies this`active, jobs
      ensures (jobs.Tables(), active, r) == CleanupTx(old(jobs.Tables()), old(active), killed, a)
    {
      hide RecoverTx;
      if active.None? {
        r := RecoverPending(a);
        return;
      }
      if active.value.child.Some? && !killed { return Err(Failed); }
      active := Some(active.value.(child := None));
      var pending := jobs.Pending();
      if pending.None? { return Err(Failed); }
      if pending.value.name != active.value.name { return Err(Failed); }
      r := RecoverPending(a);
      if r.Ok? { active := None; }
    }

    /** `before` and `after` answer the two cleanups; `finished` is what the collected workload amounts to. */
    method Validate<Receipt>(killedBefore: bool, before: Answers, attempt: Attempt,
                             finished: Result<Receipt, SandboxError>, killedAfter: bool, after: Answers)
      returns (r: Result<Receipt, SandboxError>)
      modifies this`active, jobs
      ensures (jobs.Tables(), active, r)
              == ValidateTx(old(jobs.Tables()), old(active), killedBefore, before, attempt, finished, killedAfter, after)
    {
      hide CleanupTx;
      var cleaned := Cleanup(killedBefore, before);
      if cleaned.Err? { return Err(cleaned.error); }
      if !attempt.preflight { return Err(Unavailable); }
      var begun := jobs.Begin(attempt.token, attempt.lease);
      if begun.Err? { return Err(begun.error); }
      var job := begun.value;
      if attempt.spawned.None? {
        // The refused spawn proves that no launch ran.
        if !attempt.unlaunchedReleased { return Err(Unavailable); }
        var cleared := jobs.Clear(job);
        return Err(if cleared.Err? then cleared.error else Unavailable);
      }
      active := Some(Protocol.Held(job.name, attempt.spawned));
      cleaned := Cleanup(killedAfter, after);
      if cleaned.Err? { return Err(cleaned.error); }
      r := finished;
    }
  }
}
