/**
 The distributed validation protocol (src/application/manual_repair.rs,
 src/gitops/sandbox/runner/remote.rs): a responder reserves a request durably, sends it, and
 imports a bound response; the worker admits it only inside its window and claims its nonce before
 launching; an operator may archive an expired attempt. Any number of responder processes may share
 the database. Messages may be delayed, lost or repeated, commits may take effect unreported, all
 sides may crash between any two effects, and everyone reads one monotone clock.
 */
module ValidationProtocol {
  import opened Outcomes
  import MV = ManualValidation
  import Jobs

  type Artifact = MV.Artifact
  type Wire = MV.Wire

  const GRACE_SECONDS: nat := 60

  datatype Launch = Launch(artifact: Artifact, request: Wire, at: nat)

  datatype Response = Response(artifact: Artifact, request: Wire, receipt: MV.Receipt)

  datatype Responder =
    | Idle
    | Checked(artifact: Artifact)
    | Built(artifact: Artifact, request: Wire)
    | Reserved(artifact: Artifact, request: Wire)
    | Awaiting(artifact: Artifact, request: Wire)
    | Received(artifact: Artifact, request: Wire, receipt: MV.Receipt)
    | Failing(artifact: Artifact, request: Wire)

  datatype Worker =
    | Resting
    | Admitted(artifact: Artifact, request: Wire)
    | Claimed(artifact: Artifact, request: Wire)
    | Running(artifact: Artifact, request: Wire)
    | Finished(artifact: Artifact, request: Wire, completedAt: nat)

  /** A responder process that is not acting now: its journal in memory, and where it stands. */
  datatype Process = Process(memory: seq<MV.Row>, at: Responder)

  /** `store.journal` and `responder` are those of the process that acts; the tables are everyone's. */
  datatype World = World(
    clock: nat, maxAge: nat,
    store: MV.Store, responder: Responder, others: seq<Process>,
    worker: Worker, ledger: Jobs.JobTables,
    // Histories: nonces drawn and for what, requests sent, workloads launched, responses written.
    drawn: map<string, (Artifact, Wire)>, sent: set<(Artifact, Wire)>, launches: seq<Launch>, responses: set<Response>)

  datatype Step =
    | Tick(seconds: nat)
    | CheckAttempt(artifact: Artifact) | BuildJob(nonce: string, timeout: nat, size: nat, rest: string)
    | ReserveJob | Dispatch | ReceiveResponse(receipt: MV.Receipt) | TransportFails
    | CompleteJob(elapsed: nat) | RecordFailure(elapsed: nat) | ResponderCancelled | ResponderCrashes
    | OperatorRecovers(artifact: Artifact, request: Wire, uid: nat, gid: nat, reason: string)
    | OtherFact(row: MV.Row)
    | Unreported(step: Step) | StartResponder | Turn(process: nat)
    | Admit(artifact: Artifact, request: Wire) | ClaimNonce | LaunchWorkload | FinishWorkload | Respond(body: string)
    | WorkerCrashes

  function Initial(maxAge: nat, namespace: string): World {
    World(0, maxAge, MV.EMPTY, Idle, [], Resting, Jobs.JobTables(namespace, 0, None, {}, None), map[], {}, [], {})
  }

  /** `RemoteJob::check`: the request is inside [issued_at, expires_at). */
  predicate Accepts(w: Wire, now: nat) {
    w.issuedAt.Some? && w.expiresAt.Some? && w.issuedAt.value <= now < w.expiresAt.value
  }

  /** `import_response`: bound to this request, completed inside its window and still fresh. */
  predicate Imports(w: Wire, a: Artifact, receipt: MV.Receipt, now: nat, maxAge: nat) {
    && Accepts(w, now) && receipt.artifact == a
    && w.issuedAt.value <= receipt.completedAt <= now && now - receipt.completedAt <= maxAge
  }

  /** What each operation makes of the journal; None when the responder is not where it could perform it. */
  function StoreOp(w: World, s: Step): Option<MV.Op> {
    match s
    case CompleteJob(elapsed) =>
      if w.responder.Received? then Some(MV.Complete(w.responder.receipt, w.responder.request, Some(elapsed))) else None
    case RecordFailure(elapsed) =>
      if w.responder.Failing? then Some(MV.Fail(w.responder.artifact, w.responder.request, elapsed)) else None
    case ResponderCrashes => Some(MV.Reopen)
    case OtherFact(row) => Some(MV.Append(row))
    case OperatorRecovers(a, job, uid, gid, reason) =>
      // One exclusive borrow of the journal spans the attempt check, the clock reading and the reservation.
      if w.responder.Checked? || w.responder.Built? then None
      else Some(MV.Recover(a, job, uid, gid, reason, w.clock))
    case _ => None
  }

  predicate IsStoreStep(s: Step) {
    s.CompleteJob? || s.RecordFailure? || s.ResponderCrashes? || s.OtherFact? || s.OperatorRecovers?
  }

  function Stores(w: World, s: Step): Option<World>
    requires IsStoreStep(s)
  {
    match StoreOp(w, s)
    case None => None
    case Some(op) =>
      Some(w.(store := MV.Apply(w.store, op),
              responder := if s.OperatorRecovers? || s.OtherFact? then w.responder else Idle))
  }

  function Reserves(w: World): Option<World> {
    if !w.responder.Built? then None else
    match MV.ReserveTx(w.store, w.responder.artifact, w.responder.request)
    case Err(_) => Some(w.(responder := Idle))
    case Ok(out) =>
      Some(w.(store := out.0, responder := if out.1 then Reserved(w.responder.artifact, w.responder.request) else Idle))
  }

  function Builds(w: World, nonce: string, timeout: nat, size: nat, rest: string): Option<World> {
    if !w.responder.Checked? || nonce in w.drawn then None else
    var job := MV.Wire(nonce, Some(w.clock), Some(w.clock + timeout + GRACE_SECONDS), size, rest);
    Some(w.(drawn := w.drawn[nonce := (w.responder.artifact, job)], responder := Built(w.responder.artifact, job)))
  }

  function Dispatches(w: World): Option<World> {
    if !w.responder.Reserved? then None else
    var a, job := w.responder.artifact, w.responder.request;
    if Accepts(job, w.clock) then Some(w.(sent := w.sent + {(a, job)}, responder := Awaiting(a, job)))
    else Some(w.(responder := Failing(a, job)))
  }

  /** Moves that change only where the responder stands. */
  function Moves(w: World, s: Step): Option<Responder> {
    match s
    case CheckAttempt(a) => if w.responder.Idle? && a !in w.store.attempts then Some(Checked(a)) else None
    case ReceiveResponse(receipt) =>
      if w.responder.Awaiting? && Response(w.responder.artifact, w.responder.request, receipt) in w.responses
         && Imports(w.responder.request, w.responder.artifact, receipt, w.clock, w.maxAge)
      then Some(Received(w.responder.artifact, w.responder.request, receipt)) else None
    case TransportFails =>
      if w.responder.Awaiting? then Some(Failing(w.responder.artifact, w.responder.request)) else None
    case ResponderCancelled => Some(Idle)
    case _ => None
  }

  /** A commit that takes effect although it is reported failed: memory misses it, and the caller gives up. */
  function Loses(w: World, s: Step): Option<World> {
    if !s.ReserveJob? && !(IsStoreStep(s) && !s.ResponderCrashes?) then None else
    match RespondsTo(w, s)
    case None => None
    case Some(v) =>
      Some(v.(store := v.store.(journal := w.store.journal),
              responder := if s.OperatorRecovers? || s.OtherFact? then w.responder else Idle))
  }

  /** Another process comes in, or takes its turn. */
  function Shares(w: World, s: Step): Option<World> {
    match s
    case StartResponder => Some(w.(others := w.others + [Process(w.store.rows, Idle)]))
    case Turn(i) =>
      if i >= |w.others| then None else
      Some(w.(store := w.store.(journal := w.others[i].memory), responder := w.others[i].at,
              others := w.others[i := Process(w.store.journal, w.responder)]))
    case _ => None
  }

  function RespondsTo(w: World, s: Step): Option<World> {
    if s.BuildJob? then Builds(w, s.nonce, s.timeout, s.size, s.rest)
    else if s.ReserveJob? then Reserves(w)
    else if s.Dispatch? then Dispatches(w)
    else if IsStoreStep(s) then Stores(w, s)
    else match Moves(w, s)
      case None => None
      case Some(r) => Some(w.(responder := r))
  }

  function Works(w: World, s: Step): Option<World> {
    match s
    case Admit(a, job) =>
      if w.worker.Resting? && (a, job) in w.sent && Accepts(job, w.clock) then Some(w.(worker := Admitted(a, job))) else None
    case ClaimNonce =>
      if !w.worker.Admitted? then None else
      (match Jobs.ClaimRequestTx(w.ledger, w.worker.request.nonce)
       case Err(_) => Some(w.(worker := Resting))
       case Ok(t) => Some(w.(ledger := t, worker := Claimed(w.worker.artifact, w.worker.request))))
    case LaunchWorkload =>
      if !w.worker.Claimed? then None else
      var a, job := w.worker.artifact, w.worker.request;
      if Accepts(job, w.clock) then Some(w.(launches := w.launches + [Launch(a, job, w.clock)], worker := Running(a, job)))
      else Some(w.(worker := Resting))
    case FinishWorkload =>
      if w.worker.Running? then Some(w.(worker := Finished(w.worker.artifact, w.worker.request, w.clock))) else None
    case Respond(body) =>
      if !w.worker.Finished? then None else
      var a, job := w.worker.artifact, w.worker.request;
      if Accepts(job, w.clock) then
        Some(w.(responses := w.responses + {Response(a, job, MV.Receipt(a, w.worker.completedAt, body))}, worker := Resting))
      else Some(w.(worker := Resting))
    case WorkerCrashes => Some(w.(worker := Resting))
    case _ => None
  }

  predicate IsWorkerStep(s: Step) {
    s.Admit? || s.ClaimNonce? || s.LaunchWorkload? || s.FinishWorkload? || s.Respond? || s.WorkerCrashes?
  }

  function Apply(w: World, s: Step): Option<World> {
    if s.Tick? then Some(w.(clock := w.clock + s.seconds))
    else if IsWorkerStep(s) then Works(w, s)
    else if s.Unreported? then Loses(w, s.step)
    else if s.StartResponder? || s.Turn? then Shares(w, s)
    else RespondsTo(w, s)
  }

  function Run(w: World, steps: seq<Step>): Option<World>
    decreases |steps|
  {
    if steps == [] then Some(w)
    else match Apply(w, steps[0])
      case None => None
      case Some(v) => Run(v, steps[1..])
  }

  // ---- The lease ----

  /** This request was reserved at some time: it is the artifact's attempt or an archived one. */
  predicate EverReserved(s: MV.Store, a: Artifact, w: Wire) {
    MV.Current(s, a, w) || MV.Recovered(s, a, w)
  }

  /** w1's window ends before w2's begins. */
  predicate Before(w1: Wire, w2: Wire) {
    w1.expiresAt.Some? && w2.issuedAt.Some? && w1.expiresAt.value < w2.issuedAt.value
  }

  predicate Window(w: Wire, clock: nat) {
    w.issuedAt.Some? && w.expiresAt.Some? && w.issuedAt.value < w.expiresAt.value && w.issuedAt.value <= clock
  }

  /** Every archived request's window is over, and over before any later reservation began. */
  ghost predicate Leases(s: MV.Store, clock: nat) {
    && (forall a | a in s.attempts :: Window(s.attempts[a].request, clock))
    && (forall i | 0 <= i < |s.recoveries| ::
          Window(s.recoveries[i].request, clock) && s.recoveries[i].request.expiresAt.value < s.recoveries[i].recoveredAt <= clock)
    && (forall i | 0 <= i < |s.recoveries| && s.recoveries[i].artifact in s.attempts ::
          Before(s.recoveries[i].request, s.attempts[s.recoveries[i].artifact].request))
    && (forall i, j | 0 <= i < j < |s.recoveries| && s.recoveries[i].artifact == s.recoveries[j].artifact ::
          Before(s.recoveries[i].request, s.recoveries[j].request))
  }

  ghost predicate FreshJob(s: MV.Store, clock: nat, a: Artifact, job: Wire) {
    && a !in s.attempts && Window(job, clock)
    && (forall i | 0 <= i < |s.recoveries| && s.recoveries[i].artifact == a :: Before(s.recoveries[i].request, job))
  }

  /** A nonce names one reserved request. */
  ghost predicate NoncesUnique(s: MV.Store, drawn: map<string, (Artifact, Wire)>) {
    forall a, w | EverReserved(s, a, w) :: w.nonce in drawn && drawn[w.nonce] == (a, w)
  }

  /** Memory holds the whole journal: what a process checked then still stands, since nobody wrote. */
  predicate InStep(s: MV.Store) {
    |s.journal| == |s.rows|
  }

  ghost predicate ResponderAgrees(r: Responder, s: MV.Store, clock: nat, drawn: map<string, (Artifact, Wire)>, responses: set<Response>) {
    match r
    case Idle => true
    case Checked(a) => InStep(s) ==> a !in s.attempts
    case Built(a, job) => (InStep(s) ==> FreshJob(s, clock, a, job)) && job.nonce in drawn && drawn[job.nonce] == (a, job)
    case Reserved(a, job) => EverReserved(s, a, job)
    case Awaiting(a, job) => EverReserved(s, a, job)
    case Received(a, job, receipt) => Response(a, job, receipt) in responses && receipt.artifact == a
    case Failing(a, job) => true
  }

  predicate Launched(launches: seq<Launch>, a: Artifact, job: Wire) {
    exists i | 0 <= i < |launches| :: launches[i].artifact == a && launches[i].request == job
  }

  predicate NonceLaunched(launches: seq<Launch>, nonce: string) {
    exists i | 0 <= i < |launches| :: launches[i].request.nonce == nonce
  }

  ghost predicate SentReserved(s: MV.Store, sent: set<(Artifact, Wire)>) {
    forall a, job | (a, job) in sent :: EverReserved(s, a, job)
  }

  /** Every launch claimed its own nonce and started inside its request's window. */
  ghost predicate LaunchesAgree(launches: seq<Launch>, sent: set<(Artifact, Wire)>, claimed: set<string>, clock: nat) {
    && (forall i | 0 <= i < |launches| ::
          && (launches[i].artifact, launches[i].request) in sent
          && launches[i].request.nonce in claimed
          && Accepts(launches[i].request, launches[i].at) && launches[i].at <= clock)
    && (forall i, j | 0 <= i < j < |launches| :: launches[i].request.nonce != launches[j].request.nonce)
  }

  ghost predicate WorkerAgrees(worker: Worker, launches: seq<Launch>, sent: set<(Artifact, Wire)>, claimed: set<string>) {
    match worker
    case Resting => true
    case Admitted(a, job) => (a, job) in sent
    case Claimed(a, job) => (a, job) in sent && job.nonce in claimed && !NonceLaunched(launches, job.nonce)
    case Running(a, job) => Launched(launches, a, job)
    case Finished(a, job, at) => Launched(launches, a, job)
  }

  ghost predicate ResponsesAgree(responses: set<Response>, launches: seq<Launch>) {
    forall r | r in responses :: Launched(launches, r.artifact, r.request) && r.receipt.artifact == r.artifact
  }

  /** Only the worker's own responses ever complete an attempt. */
  ghost predicate ReceiptsBound(s: MV.Store, responses: set<Response>) {
    && (forall a | a in s.attempts && s.attempts[a].receipt.Some? ::
          Response(a, s.attempts[a].request, s.attempts[a].receipt.value) in responses)
    && (forall i | 0 <= i < |s.recoveries| && s.recoveries[i].receipt.Some? ::
          Response(s.recoveries[i].artifact, s.recoveries[i].request, s.recoveries[i].receipt.value) in responses)
  }

  ghost predicate StoreInv(s: MV.Store, clock: nat, drawn: map<string, (Artifact, Wire)>, sent: set<(Artifact, Wire)>, responses: set<Response>) {
    MV.DurableInv(s) && Leases(s, clock) && NoncesUnique(s, drawn) && SentReserved(s, sent) && ReceiptsBound(s, responses)
  }

  ghost predicate CoreInv(w: World) {
    && StoreInv(w.store, w.clock, w.drawn, w.sent, w.responses)
    && ResponderAgrees(w.responder, w.store, w.clock, w.drawn, w.responses)
    && LaunchesAgree(w.launches, w.sent, w.ledger.requests, w.clock)
    && WorkerAgrees(w.worker, w.launches, w.sent, w.ledger.requests)
    && ResponsesAgree(w.responses, w.launches)
  }

  /** A waiting process's memory is a prefix of the table, and what it stands on holds as far as memory does. */
  ghost predicate ProcessAgrees(p: Process, w: World) {
    && |p.memory| <= |w.store.rows| && p.memory == w.store.rows[..|p.memory|]
    && ResponderAgrees(p.at, w.store.(journal := p.memory), w.clock, w.drawn, w.responses)
  }

  ghost predicate Inv(w: World) {
    CoreInv(w) && forall i | 0 <= i < |w.others| :: ProcessAgrees(w.others[i], w)
  }

  // ---- Preservation ----

  /** What others rely on only ever grows, and the tables change only with a new row. */
  ghost predicate Advances(w: World, v: World) {
    && w.clock <= v.clock && w.responses <= v.responses
    && (forall n | n in w.drawn :: n in v.drawn && v.drawn[n] == w.drawn[n])
    && |w.store.rows| <= |v.store.rows| && v.store.rows[..|w.store.rows|] == w.store.rows
    && (|v.store.rows| == |w.store.rows| ==> v.store.attempts == w.store.attempts && v.store.recoveries == w.store.recoveries)
    && (forall a, job | EverReserved(w.store, a, job) :: EverReserved(v.store, a, job))
  }

  lemma SameTables(s: MV.Store, t: MV.Store)
    requires s.attempts == t.attempts && s.recoveries == t.recoveries
    ensures forall a, job :: EverReserved(s, a, job) <==> EverReserved(t, a, job)
  {
    assert forall a, job :: MV.Recovered(s, a, job) <==> MV.Recovered(t, a, job);
  }

  lemma ProcessKeeps(p: Process, w: World, v: World)
    requires ProcessAgrees(p, w) && Advances(w, v)
    ensures ProcessAgrees(p, v)
  {
    hide MV.Recovered, MV.Current, EverReserved;
    var (s, t) := (w.store.(journal := p.memory), v.store.(journal := p.memory));
    assert p.memory == v.store.rows[..|p.memory|];
    SameTables(s, w.store);
    SameTables(t, v.store);
  }

  /** No reservation appeared, moved or vanished. */
  predicate SameReservations(s: MV.Store, t: MV.Store) {
    && t.recoveries == s.recoveries
    && t.attempts.Keys == s.attempts.Keys
    && forall a | a in s.attempts :: t.attempts[a].request == s.attempts[a].request
  }

  lemma SameReservationsKeep(s: MV.Store, t: MV.Store, clock: nat, drawn: map<string, (Artifact, Wire)>)
    requires SameReservations(s, t) && Leases(s, clock) && NoncesUnique(s, drawn)
    ensures Leases(t, clock) && NoncesUnique(t, drawn)
    ensures forall a, w :: EverReserved(t, a, w) <==> EverReserved(s, a, w)
  {
    assert forall a, w :: MV.Recovered(t, a, w) <==> MV.Recovered(s, a, w);
    assert forall a, w :: EverReserved(t, a, w) <==> EverReserved(s, a, w);
  }

  lemma OtherKeepsReservations(s: MV.Store, op: MV.Op)
    requires op.Complete? || op.Fail? || op.Append? || op.Reopen?
    ensures SameReservations(s, MV.Apply(s, op))
    ensures !op.Complete? ==> MV.Apply(s, op).attempts == s.attempts
  {
  }

  lemma TickKeepsInv(w: World, seconds: nat)
    requires CoreInv(w)
    ensures CoreInv(w.(clock := w.clock + seconds))
  {
  }

  /** A worker that neither launches nor answers changes only where it stands and what it claimed. */
  lemma WorkerMoveKeepsInv(w: World, v: World)
    requires CoreInv(w) && v == w.(worker := v.worker, ledger := v.ledger) && w.ledger.requests <= v.ledger.requests
    requires WorkerAgrees(v.worker, v.launches, v.sent, v.ledger.requests)
    ensures CoreInv(v)
  {
    hide StoreInv, ResponderAgrees, WorkerAgrees, ResponsesAgree;
  }

  lemma AdmitKeepsInv(w: World, s: Step)
    requires CoreInv(w) && s.Admit? && Works(w, s).Some?
    ensures CoreInv(Works(w, s).value)
  {
    hide CoreInv;
    WorkerMoveKeepsInv(w, Works(w, s).value);
  }

  lemma ClaimKeepsInv(w: World)
    requires CoreInv(w) && Works(w, ClaimNonce).Some?
    ensures CoreInv(Works(w, ClaimNonce).value)
  {
    UnclaimedNotLaunched(w, w.worker.request.nonce);
    AdmittedWasSent(w);
    hide CoreInv, NonceLaunched;
    WorkerMoveKeepsInv(w, Works(w, ClaimNonce).value);
  }

  lemma UnclaimedNotLaunched(w: World, nonce: string)
    requires CoreInv(w)
    ensures nonce !in w.ledger.requests ==> !NonceLaunched(w.launches, nonce)
  {
    hide StoreInv, ResponderAgrees, WorkerAgrees, ResponsesAgree;
  }

  lemma AdmittedWasSent(w: World)
    requires CoreInv(w) && w.worker.Admitted?
    ensures (w.worker.artifact, w.worker.request) in w.sent
  {
    hide StoreInv, ResponderAgrees, LaunchesAgree, ResponsesAgree;
  }

  lemma FinishKeepsInv(w: World)
    requires CoreInv(w) && Works(w, FinishWorkload).Some?
    ensures CoreInv(Works(w, FinishWorkload).value)
  {
    RunningWasLaunched(w);
    hide CoreInv, Launched;
    WorkerMoveKeepsInv(w, Works(w, FinishWorkload).value);
  }

  lemma RunningWasLaunched(w: World)
    requires CoreInv(w) && w.worker.Running?
    ensures Launched(w.launches, w.worker.artifact, w.worker.request)
  {
    hide StoreInv, ResponderAgrees, LaunchesAgree, ResponsesAgree, Launched;
  }

  lemma WorkerCrashKeepsInv(w: World)
    requires CoreInv(w)
    ensures CoreInv(Works(w, WorkerCrashes).value)
  {
    hide CoreInv;
    WorkerMoveKeepsInv(w, Works(w, WorkerCrashes).value);
  }

  lemma WorksOnlyWorkerSteps(w: World, s: Step)
    requires Works(w, s).Some?
    ensures s.Admit? || s.ClaimNonce? || s.LaunchWorkload? || s.FinishWorkload? || s.Respond? || s.WorkerCrashes?
  {
  }

  lemma WorkerKeepsInv(w: World, s: Step)
    requires CoreInv(w) && Works(w, s).Some?
    ensures CoreInv(Works(w, s).value)
  {
    hide *;
    WorksOnlyWorkerSteps(w, s);
    if s.LaunchWorkload? {
      LaunchKeepsInv(w);
    } else if s.Respond? {
      RespondStepKeepsInv(w, s);
    } else if s.Admit? {
      AdmitKeepsInv(w, s);
    } else if s.ClaimNonce? {
      ClaimKeepsInv(w);
    } else if s.FinishWorkload? {
      FinishKeepsInv(w);
    } else {
      WorkerCrashKeepsInv(w);
    }
  }

  lemma RespondStepKeepsInv(w: World, s: Step)
    requires CoreInv(w) && s.Respond? && Works(w, s).Some?
    ensures CoreInv(Works(w, s).value)
  {
    hide CoreInv;
    RespondKeepsInv(w, Works(w, s).value);
  }

  lemma RespondKeepsInv(w: World, v: World)
    requires CoreInv(w) && w.worker.Finished? && v.worker.Resting?
    requires v == w.(responses := v.responses, worker := v.worker) && w.responses <= v.responses
    requires forall r | r in v.responses && r !in w.responses ::
               r.artifact == w.worker.artifact && r.request == w.worker.request && r.receipt.artifact == r.artifact
    ensures CoreInv(v)
  {
    hide MV.Inv, Leases, NoncesUnique, SentReserved, LaunchesAgree;
    assert ReceiptsBound(v.store, v.responses);
    assert ResponsesAgree(v.responses, v.launches);
  }

  lemma LaunchKeepsInv(w: World)
    requires CoreInv(w) && Works(w, LaunchWorkload).Some?
    ensures CoreInv(Works(w, LaunchWorkload).value)
  {
    hide StoreInv, ResponderAgrees;
    var v := Works(w, LaunchWorkload).value;
    if v.worker.Running? {
      var a, job := w.worker.artifact, w.worker.request;
      assert v.launches[|w.launches|] == Launch(a, job, w.clock);
      forall i | 0 <= i < |w.launches| ensures w.launches[i].request.nonce != job.nonce {
        assert !NonceLaunched(w.launches, job.nonce);
      }
      forall b, other | Launched(w.launches, b, other) ensures Launched(v.launches, b, other) {
        var i :| 0 <= i < |w.launches| && w.launches[i].artifact == b && w.launches[i].request == other;
        assert v.launches[i] == w.launches[i];
      }
    }
  }

  lemma ReserveKeepsInv(w: World)
    requires CoreInv(w) && Reserves(w).Some?
    ensures CoreInv(Reserves(w).value)
  {
    var v := Reserves(w).value;
    var a, job := w.responder.artifact, w.responder.request;
    if v.store != w.store {
      assert v.store.attempts == w.store.attempts[a := MV.Attempt(job, None)] && v.store.recoveries == w.store.recoveries;
      ReservationKeepsStore(w.store, v.store, w.clock, w.drawn, w.sent, w.responses, a, job);
    }
  }

  lemma ReservationKeepsStore(s: MV.Store, t: MV.Store, clock: nat, drawn: map<string, (Artifact, Wire)>, sent: set<(Artifact, Wire)>,
                              responses: set<Response>, a: Artifact, job: Wire)
    requires StoreInv(s, clock, drawn, sent, responses) && FreshJob(s, clock, a, job)
    requires job.nonce in drawn && drawn[job.nonce] == (a, job)
    requires t == MV.Apply(s, MV.Reserve(a, job))
    requires t.attempts == s.attempts[a := MV.Attempt(job, None)] && t.recoveries == s.recoveries
    ensures StoreInv(t, clock, drawn, sent, responses) && EverReserved(t, a, job)
  {
    MV.StepKeepsDurable(s, MV.Reserve(a, job));
    assert forall b, o :: MV.Recovered(t, b, o) <==> MV.Recovered(s, b, o);
    forall b, o ensures EverReserved(t, b, o) <==> EverReserved(s, b, o) || (b == a && o == job) {
    }
  }

  lemma RecoveryKeepsStore(s: MV.Store, op: MV.Op, drawn: map<string, (Artifact, Wire)>, sent: set<(Artifact, Wire)>, responses: set<Response>)
    requires op.Recover? && StoreInv(s, op.now, drawn, sent, responses)
    ensures StoreInv(MV.Apply(s, op), op.now, drawn, sent, responses)
    ensures forall a, job :: EverReserved(MV.Apply(s, op), a, job) <==> EverReserved(s, a, job)
  {
    var t := MV.Apply(s, op);
    MV.StepKeepsDurable(s, op);
    MV.RowsAppend(s, op);
    if t != s {
      assert s.journal == s.rows[..|s.rows|] == s.rows;
      MV.RecoverEffect(s, op.artifact, op.request, op.uid, op.gid, op.reason, op.now);
      assert t.recoveries[..|s.recoveries|] == s.recoveries;
      ArchiveKeepsLeases(s, t, op.now, op.artifact);
      ArchiveKeepsReceipts(s, t, responses, op.artifact);
      ArchiveKeepsReservations(s, t, drawn, sent, op.artifact);
    }
  }

  lemma ArchiveKeepsReservations(s: MV.Store, t: MV.Store, drawn: map<string, (Artifact, Wire)>, sent: set<(Artifact, Wire)>, a: Artifact)
    requires a in s.attempts && t.attempts == s.attempts - {a} && NoncesUnique(s, drawn) && SentReserved(s, sent)
    requires forall a', w' :: MV.Recovered(t, a', w') <==> MV.Recovered(s, a', w') || (a' == a && w' == s.attempts[a].request)
    ensures forall a', w' :: EverReserved(t, a', w') <==> EverReserved(s, a', w')
    ensures NoncesUnique(t, drawn) && SentReserved(t, sent)
  {
    assert forall a', w' :: EverReserved(t, a', w') <==> EverReserved(s, a', w');
  }

  lemma ArchiveKeepsReceipts(s: MV.Store, t: MV.Store, responses: set<Response>, a: Artifact)
    requires ReceiptsBound(s, responses) && a in s.attempts && t.attempts == s.attempts - {a}
    requires |t.recoveries| == |s.recoveries| + 1 && t.recoveries[..|s.recoveries|] == s.recoveries
    requires var r := t.recoveries[|s.recoveries|];
             r.artifact == a && r.request == s.attempts[a].request && r.receipt == s.attempts[a].receipt
    ensures ReceiptsBound(t, responses)
  {
    assert forall i | 0 <= i < |s.recoveries| :: t.recoveries[i] == s.recoveries[i];
  }

  /** The archived request was the newest of its artifact, and its window is over. */
  lemma ArchiveKeepsLeases(s: MV.Store, t: MV.Store, now: nat, a: Artifact)
    requires Leases(s, now) && a in s.attempts && t.attempts == s.attempts - {a}
    requires |t.recoveries| == |s.recoveries| + 1 && t.recoveries[..|s.recoveries|] == s.recoveries
    requires var r := t.recoveries[|s.recoveries|];
             && r.artifact == a && r.request == s.attempts[a].request && r.recoveredAt == now
             && r.request.expiresAt.Some? && r.request.expiresAt.value < now
    ensures Leases(t, now)
  {
    assert forall i | 0 <= i < |s.recoveries| :: t.recoveries[i] == s.recoveries[i];
  }

  lemma RecoverKeepsInv(w: World, op: MV.Op)
    requires CoreInv(w) && op.Recover? && op.now == w.clock && !w.responder.Checked? && !w.responder.Built?
    ensures CoreInv(w.(store := MV.Apply(w.store, op)))
  {
    RecoveryKeepsBoth(w, op);
    StoreMoves(w, MV.Apply(w.store, op));
  }

  lemma StoreMoves(w: World, t: MV.Store)
    requires CoreInv(w) && StoreInv(t, w.clock, w.drawn, w.sent, w.responses)
    requires ResponderAgrees(w.responder, t, w.clock, w.drawn, w.responses)
    ensures CoreInv(w.(store := t))
  {
  }

  lemma RecoveryKeepsBoth(w: World, op: MV.Op)
    requires op.Recover? && op.now == w.clock && StoreInv(w.store, w.clock, w.drawn, w.sent, w.responses)
    requires ResponderAgrees(w.responder, w.store, w.clock, w.drawn, w.responses)
    requires !w.responder.Checked? && !w.responder.Built?
    ensures StoreInv(MV.Apply(w.store, op), w.clock, w.drawn, w.sent, w.responses)
    ensures ResponderAgrees(w.responder, MV.Apply(w.store, op), w.clock, w.drawn, w.responses)
  {
    RecoveryKeepsStore(w.store, op, w.drawn, w.sent, w.responses);
    ResponderKeepsUp(w, MV.Apply(w.store, op));
  }

  lemma ResponderKeepsUp(w: World, t: MV.Store)
    requires ResponderAgrees(w.responder, w.store, w.clock, w.drawn, w.responses)
    requires !w.responder.Checked? && !w.responder.Built?
    requires forall a, job :: EverReserved(t, a, job) <==> EverReserved(w.store, a, job)
    ensures ResponderAgrees(w.responder, t, w.clock, w.drawn, w.responses)
  {
  }

  lemma OtherStepKeepsInv(w: World, v: World, op: MV.Op)
    requires CoreInv(w) && v == w.(store := MV.Apply(w.store, op), responder := v.responder)
    requires op.Complete? || op.Fail? || op.Append? || op.Reopen?
    requires op.Complete? ==> Response(op.receipt.artifact, op.request, op.receipt) in w.responses
    requires v.responder.Idle? || (v.responder == w.responder && op.Append?)
    ensures CoreInv(v)
  {
    hide MV.DurableInv, Leases, NoncesUnique, SentReserved, ReceiptsBound, EverReserved, MV.Apply, SameReservations, ResponderAgrees,
         LaunchesAgree, WorkerAgrees, ResponsesAgree;
    MV.StepKeepsDurable(w.store, op);
    OtherKeepsReservations(w.store, op);
    SameReservationsKeep(w.store, v.store, w.clock, w.drawn);
    SentStays(w.store, v.store, w.sent);
    ReceiptsStay(w.store, op, w.responses);
    if v.responder.Idle? {
      IdleAgrees(v.store, v.clock, v.drawn, v.responses);
    } else {
      AppendedAgrees(w, op);
    }
  }

  lemma IdleAgrees(s: MV.Store, clock: nat, drawn: map<string, (Artifact, Wire)>, responses: set<Response>)
    ensures ResponderAgrees(Idle, s, clock, drawn, responses)
  {
  }

  lemma SentStays(s: MV.Store, t: MV.Store, sent: set<(Artifact, Wire)>)
    requires SentReserved(s, sent) && forall a, w :: EverReserved(t, a, w) <==> EverReserved(s, a, w)
    ensures SentReserved(t, sent)
  {
    hide EverReserved;
  }

  lemma ReceiptsStay(s: MV.Store, op: MV.Op, responses: set<Response>)
    requires ReceiptsBound(s, responses) && (op.Complete? || op.Fail? || op.Append? || op.Reopen?)
    requires op.Complete? ==> Response(op.receipt.artifact, op.request, op.receipt) in responses
    ensures ReceiptsBound(MV.Apply(s, op), responses)
  {
    hide MV.ScopeSettled, MV.FailureRecorded, MV.ScopedRow;
  }

  /** Another kind of fact leaves what the process checked as it was, if memory was in step at all. */
  lemma AppendedAgrees(w: World, op: MV.Op)
    requires op.Append? && ResponderAgrees(w.responder, w.store, w.clock, w.drawn, w.responses)
    ensures ResponderAgrees(w.responder, MV.Apply(w.store, op), w.clock, w.drawn, w.responses)
  {
    hide EverReserved;
    SameTables(w.store, MV.Apply(w.store, op));
  }

  lemma StoreStepKeepsInv(w: World, s: Step)
    requires CoreInv(w) && IsStoreStep(s) && Stores(w, s).Some?
    ensures CoreInv(Stores(w, s).value)
  {
    var op := StoreOp(w, s).value;
    if s.OperatorRecovers? {
      RecoverKeepsInv(w, op);
    } else {
      OtherStepKeepsInv(w, Stores(w, s).value, op);
    }
  }

  /** Moves change only where the responder stands. */
  lemma MoveKeepsInv(w: World, s: Step)
    requires CoreInv(w) && Moves(w, s).Some?
    ensures CoreInv(w.(responder := Moves(w, s).value))
  {
  }

  lemma ResponderKeepsInv(w: World, s: Step)
    requires CoreInv(w) && RespondsTo(w, s).Some?
    ensures CoreInv(RespondsTo(w, s).value)
  {
    if s.BuildJob? {
      BuildKeepsInv(w, s.nonce, s.timeout, s.size, s.rest);
    } else if s.ReserveJob? {
      ReserveKeepsInv(w);
    } else if s.Dispatch? {
      DispatchKeepsInv(w);
    } else if IsStoreStep(s) {
      StoreStepKeepsInv(w, s);
    } else {
      MoveKeepsInv(w, s);
    }
  }

  lemma DispatchKeepsInv(w: World)
    requires CoreInv(w) && Dispatches(w).Some?
    ensures CoreInv(Dispatches(w).value)
  {
    var v := Dispatches(w).value;
    assert SentReserved(v.store, v.sent);
    assert LaunchesAgree(v.launches, v.sent, v.ledger.requests, v.clock);
  }

  /** Every archived window ended before this instant, so the request built now begins after them all. */
  lemma BuildKeepsInv(w: World, nonce: string, timeout: nat, size: nat, rest: string)
    requires CoreInv(w) && Builds(w, nonce, timeout, size, rest).Some?
    ensures CoreInv(Builds(w, nonce, timeout, size, rest).value)
  {
    var v := Builds(w, nonce, timeout, size, rest).value;
    assert StoreInv(v.store, v.clock, v.drawn, v.sent, v.responses);
    assert InStep(w.store) ==> FreshJob(v.store, v.clock, v.responder.artifact, v.responder.request);
  }

  // ---- Other processes ----

  lemma EverReservedStays(s: MV.Store, op: MV.Op)
    requires !op.Unreported?
    ensures forall a, job | EverReserved(s, a, job) :: EverReserved(MV.Apply(s, op), a, job)
    ensures |MV.Apply(s, op).rows| == |s.rows| ==> MV.Apply(s, op).attempts == s.attempts && MV.Apply(s, op).recoveries == s.recoveries
  {
    hide MV.ScopeSettled, MV.FailureRecorded, MV.ReasonAccepted, MV.ScopedRow, MV.FirstPrepared;
    var t := MV.Apply(s, op);
    MV.RecoveriesStay(s, op);
    forall a, job | MV.Recovered(s, a, job) ensures MV.Recovered(t, a, job) {
      var i :| 0 <= i < |s.recoveries| && s.recoveries[i].artifact == a && s.recoveries[i].request == job;
      assert t.recoveries[..|s.recoveries|][i] == t.recoveries[i];
    }
    if op.Recover? && t != s {
      assert t.recoveries[|s.recoveries|].artifact == op.artifact && t.recoveries[|s.recoveries|].request == op.request;
    }
  }

  lemma OperationAdvances(w: World, v: World, op: MV.Op)
    requires !op.Unreported? && |w.store.journal| <= |w.store.rows|
    requires v.store == MV.Apply(w.store, op).(journal := v.store.journal)
    requires v.clock == w.clock && v.responses == w.responses && v.drawn == w.drawn
    ensures Advances(w, v)
  {
    hide MV.Apply, EverReserved;
    MV.RowsAppend(w.store, op);
    EverReservedStays(w.store, op);
    SameTables(v.store, MV.Apply(w.store, op));
  }

  lemma NothingAdvances(w: World, v: World)
    requires v.store.attempts == w.store.attempts && v.store.recoveries == w.store.recoveries && v.store.rows == w.store.rows
    requires w.clock <= v.clock && w.responses <= v.responses
    requires forall n | n in w.drawn :: n in v.drawn && v.drawn[n] == w.drawn[n]
    ensures Advances(w, v)
  {
    hide EverReserved;
    SameTables(w.store, v.store);
    assert w.store.rows[..|w.store.rows|] == w.store.rows;
  }

  lemma ResponderAdvances(w: World, s: Step)
    requires RespondsTo(w, s).Some? && |w.store.journal| <= |w.store.rows|
    ensures Advances(w, RespondsTo(w, s).value) && RespondsTo(w, s).value.others == w.others
  {
    hide MV.Apply, Advances;
    var v := RespondsTo(w, s).value;
    if s.ReserveJob? {
      ReserveIsOperation(w);
      OperationAdvances(w, v, MV.Reserve(w.responder.artifact, w.responder.request));
    } else if IsStoreStep(s) {
      OperationAdvances(w, v, StoreOp(w, s).value);
    } else {
      NothingAdvances(w, v);
    }
  }

  lemma ReserveIsOperation(w: World)
    requires Reserves(w).Some?
    ensures Reserves(w).value.store == MV.Apply(w.store, MV.Reserve(w.responder.artifact, w.responder.request))
  {
    hide MV.RecordTx;
  }

  lemma LosesAdvances(w: World, s: Step)
    requires Loses(w, s).Some? && |w.store.journal| <= |w.store.rows|
    ensures Advances(w, Loses(w, s).value) && Loses(w, s).value.others == w.others
  {
    hide RespondsTo, EverReserved;
    var (u, v) := (RespondsTo(w, s).value, Loses(w, s).value);
    ResponderAdvances(w, s);
    SameTables(u.store, v.store);
  }

  lemma WorkerAdvances(w: World, s: Step)
    requires Works(w, s).Some?
    ensures Advances(w, Works(w, s).value) && Works(w, s).value.others == w.others
  {
    NothingAdvances(w, Works(w, s).value);
  }

  /** Losing a report leaves the tables as the commit made them, and memory behind them. */
  lemma LosesKeepsCore(w: World, s: Step)
    requires CoreInv(w) && Loses(w, s).Some?
    ensures CoreInv(Loses(w, s).value)
  {
    hide StoreInv, LaunchesAgree, WorkerAgrees, ResponsesAgree, RespondsTo, Loses, ResponderAgrees, Advances;
    LosesReports(w, s);
    var (u, v) := (RespondsTo(w, s).value, Loses(w, s).value);
    StoreIsDurable(w);
    ResponderKeepsInv(w, s);
    LosesKeepsWorker(w, s);
    LosesAdvances(w, s);
    RowsOf(w, v);
    MemoryFallsBehind(u.store, w.store, v.clock, v.drawn, v.sent, v.responses);
    if v.responder.Idle? {
      IdleAgrees(v.store, v.clock, v.drawn, v.responses);
    } else {
      var p := Process(w.store.journal, w.responder);
      assert w.store.(journal := p.memory) == w.store && v.store.(journal := p.memory) == v.store;
      ProcessKeeps(p, w, v);
    }
  }

  lemma LosesReports(w: World, s: Step)
    requires Loses(w, s).Some?
    ensures RespondsTo(w, s).Some?
  {
    hide RespondsTo;
  }

  lemma RowsOf(w: World, v: World)
    requires Advances(w, v)
    ensures |w.store.rows| <= |v.store.rows| && v.store.rows[..|w.store.rows|] == w.store.rows
  {
    hide EverReserved;
  }

  lemma LosesKeepsWorker(w: World, s: Step)
    requires Loses(w, s).Some?
    ensures var (u, v) := (RespondsTo(w, s).value, Loses(w, s).value);
            && v == u.(store := u.store.(journal := w.store.journal), responder := v.responder)
            && (v.responder.Idle? || (v.responder == w.responder && u.responder == w.responder))
            && v.clock == u.clock && v.drawn == u.drawn && v.sent == u.sent && v.responses == u.responses
  {
    hide MV.Apply, MV.ReserveTx;
  }

  lemma StoreIsDurable(w: World)
    requires CoreInv(w)
    ensures MV.DurableInv(w.store) && |w.store.journal| <= |w.store.rows|
    ensures w.store.journal == w.store.rows[..|w.store.journal|]
  {
    hide MV.Inv, Leases, NoncesUnique, SentReserved, ReceiptsBound, ResponderAgrees, LaunchesAgree, WorkerAgrees, ResponsesAgree;
  }

  lemma MemoryFallsBehind(t: MV.Store, s: MV.Store, clock: nat, drawn: map<string, (Artifact, Wire)>, sent: set<(Artifact, Wire)>,
                          responses: set<Response>)
    requires StoreInv(t, clock, drawn, sent, responses) && MV.DurableInv(s)
    requires |s.rows| <= |t.rows| && t.rows[..|s.rows|] == s.rows
    ensures StoreInv(t.(journal := s.journal), clock, drawn, sent, responses)
  {
    hide MV.Inv, EverReserved;
    var u := t.(journal := s.journal);
    SameTables(t, u);
    assert t.rows[..|s.journal|] == s.rows[..|s.journal|];
    assert u.(journal := u.rows) == t.(journal := t.rows);
  }

  lemma TurnKeepsInv(w: World, i: nat)
    requires Inv(w) && i < |w.others|
    ensures Inv(Shares(w, Turn(i)).value)
  {
    hide StoreInv, ResponderAgrees, LaunchesAgree, WorkerAgrees, ResponsesAgree;
    var v := Shares(w, Turn(i)).value;
    StoreIsDurable(w);
    MemorySwaps(w.store, w.others[i].memory, w.clock, w.drawn, w.sent, w.responses);
    forall k | 0 <= k < |v.others| ensures ProcessAgrees(v.others[k], v) {
      if k == i {
        assert w.store.(journal := w.store.journal) == w.store;
        assert v.store.(journal := w.store.journal) == w.store;
      } else {
        assert v.store.(journal := w.others[k].memory) == w.store.(journal := w.others[k].memory);
      }
    }
  }

  lemma MemorySwaps(s: MV.Store, memory: seq<MV.Row>, clock: nat, drawn: map<string, (Artifact, Wire)>, sent: set<(Artifact, Wire)>,
                    responses: set<Response>)
    requires StoreInv(s, clock, drawn, sent, responses) && |memory| <= |s.rows| && memory == s.rows[..|memory|]
    ensures StoreInv(s.(journal := memory), clock, drawn, sent, responses)
    ensures |s.journal| <= |s.rows| && s.journal == s.rows[..|s.journal|]
  {
    hide MV.Inv, EverReserved;
    var u := s.(journal := memory);
    SameTables(s, u);
    assert u.(journal := u.rows) == s.(journal := s.rows);
  }

  lemma StartKeepsInv(w: World)
    requires Inv(w)
    ensures Inv(Shares(w, StartResponder).value)
  {
    hide StoreInv, LaunchesAgree, WorkerAgrees, ResponsesAgree;
    assert w.store.rows[..|w.store.rows|] == w.store.rows;
  }

  lemma AdvanceKeepsInv(w: World, v: World)
    requires Inv(w) && CoreInv(v) && Advances(w, v) && v.others == w.others
    ensures Inv(v)
  {
    hide CoreInv, Advances, ProcessAgrees;
    forall i | 0 <= i < |v.others| ensures ProcessAgrees(v.others[i], v) {
      ProcessKeeps(w.others[i], w, v);
    }
  }

  lemma StepKeepsInv(w: World, s: Step)
    requires Inv(w) && Apply(w, s).Some?
    ensures Inv(Apply(w, s).value)
  {
    hide CoreInv, ProcessAgrees, Works, RespondsTo, Loses, Shares, Advances;
    var v := Apply(w, s).value;
    StoreIsDurable(w);
    if s.Tick? {
      TickKeepsInv(w, s.seconds);
      NothingAdvances(w, v);
      AdvanceKeepsInv(w, v);
    } else if IsWorkerStep(s) {
      WorkerKeepsInv(w, s);
      WorkerAdvances(w, s);
      AdvanceKeepsInv(w, v);
    } else if s.Unreported? {
      LosesKeepsCore(w, s.step);
      LosesAdvances(w, s.step);
      AdvanceKeepsInv(w, v);
    } else if s.StartResponder? {
      StartKeepsInv(w);
    } else if s.Turn? {
      TurnExists(w, s.process);
      TurnKeepsInv(w, s.process);
    } else {
      ResponderKeepsInv(w, s);
      ResponderAdvances(w, s);
      AdvanceKeepsInv(w, v);
    }
  }

  lemma TurnExists(w: World, i: nat)
    requires Shares(w, Turn(i)).Some?
    ensures i < |w.others|
  {
  }

  lemma {:induction false} RunKeepsInv(w: World, steps: seq<Step>)
    requires Inv(w) && Run(w, steps).Some?
    ensures Inv(Run(w, steps).value)
    decreases |steps|
  {
    if steps != [] {
      StepKeepsInv(w, steps[0]);
      RunKeepsInv(Apply(w, steps[0]).value, steps[1..]);
    }
  }

  ghost predicate Reaches(maxAge: nat, namespace: string, steps: seq<Step>, w: World) {
    Run(Initial(maxAge, namespace), steps) == Some(w)
  }

  lemma ReachableInv(maxAge: nat, namespace: string, steps: seq<Step>, w: World)
    requires Reaches(maxAge, namespace, steps, w)
    ensures Inv(w)
  {
    assert forall a, b :: !EverReserved(MV.EMPTY, a, b);
    RunKeepsInv(Initial(maxAge, namespace), steps);
  }

  // ---- What every run guarantees ----

  lemma LeasesOrder(s: MV.Store, clock: nat, a: Artifact, r1: Wire, r2: Wire)
    requires Leases(s, clock) && EverReserved(s, a, r1) && EverReserved(s, a, r2) && r1 != r2
    ensures Before(r1, r2) || Before(r2, r1)
  {
    var rs := s.recoveries;
    if MV.Current(s, a, r1) {
      var j :| 0 <= j < |rs| && rs[j].artifact == a && rs[j].request == r2;
    } else {
      var i :| 0 <= i < |rs| && rs[i].artifact == a && rs[i].request == r1;
      if !MV.Current(s, a, r2) {
        var j :| 0 <= j < |rs| && rs[j].artifact == a && rs[j].request == r2;
      }
    }
  }

  /** Windows of one artifact's requests follow each other: one is over before the other begins. */
  lemma WindowsOrdered(maxAge: nat, namespace: string, steps: seq<Step>, w: World, a: Artifact, r1: Wire, r2: Wire)
    requires Reaches(maxAge, namespace, steps, w)
    requires EverReserved(w.store, a, r1) && EverReserved(w.store, a, r2) && r1 != r2
    ensures Before(r1, r2) || Before(r2, r1)
  {
    ReachableInv(maxAge, namespace, steps, w);
    LeasesOrder(w.store, w.clock, a, r1, r2);
  }

  /**
   Lease exclusion: at no instant would the worker or the responder accept two different requests
   ever reserved for one artifact.
   */
  lemma LeaseExclusion(maxAge: nat, namespace: string, steps: seq<Step>, w: World,
                       a: Artifact, r1: Wire, r2: Wire, now: nat)
    requires Reaches(maxAge, namespace, steps, w)
    requires EverReserved(w.store, a, r1) && EverReserved(w.store, a, r2) && r1 != r2
    ensures !(Accepts(r1, now) && Accepts(r2, now))
  {
    WindowsOrdered(maxAge, namespace, steps, w, a, r1, r2);
  }

  function LaunchCount(launches: seq<Launch>, a: Artifact): nat {
    if launches == [] then 0
    else LaunchCount(launches[..|launches| - 1], a) + if launches[|launches| - 1].artifact == a then 1 else 0
  }

  function LaunchedWires(launches: seq<Launch>, a: Artifact): set<Wire> {
    set i | 0 <= i < |launches| && launches[i].artifact == a :: launches[i].request
  }

  function ReservedWires(rows: seq<MV.Row>, a: Artifact): set<Wire> {
    set i | 0 <= i < |rows| && MV.IsStage(rows[i], a, MV.Reserved) :: rows[i].event.request
  }

  lemma {:induction false} ReservedWiresCounted(rows: seq<MV.Row>, a: Artifact)
    ensures |ReservedWires(rows, a)| <= MV.Tally(rows, a, MV.Reserved)
  {
    if rows != [] {
      var n := |rows| - 1;
      var init := rows[..n];
      ReservedWiresCounted(init, a);
      ReservedWiresGrow(rows, a);
    }
  }

  lemma ReservedWiresGrow(rows: seq<MV.Row>, a: Artifact)
    requires rows != []
    ensures var last := rows[|rows| - 1];
            ReservedWires(rows, a)
            == ReservedWires(rows[..|rows| - 1], a) + if MV.IsStage(last, a, MV.Reserved) then {last.event.request} else {}
  {
    var init := rows[..|rows| - 1];
    assert forall i | 0 <= i < |init| :: init[i] == rows[i];
  }

  lemma {:induction false} LaunchedWiresCounted(launches: seq<Launch>, a: Artifact)
    requires forall i, j | 0 <= i < j < |launches| :: launches[i].request.nonce != launches[j].request.nonce
    ensures |LaunchedWires(launches, a)| == LaunchCount(launches, a)
  {
    if launches != [] {
      var n := |launches| - 1;
      var init := launches[..n];
      LaunchedWiresCounted(init, a);
      if launches[n].artifact == a {
        assert launches[n].request !in LaunchedWires(init, a) by {
          assert forall i | 0 <= i < n :: launches[i].request.nonce != launches[n].request.nonce;
        }
      }
      LaunchedWiresGrow(launches, a);
    }
  }

  lemma LaunchedWiresGrow(launches: seq<Launch>, a: Artifact)
    requires launches != []
    ensures var last := launches[|launches| - 1];
            LaunchedWires(launches, a)
            == LaunchedWires(launches[..|launches| - 1], a) + if last.artifact == a then {last.request} else {}
  {
    var init := launches[..|launches| - 1];
    assert forall i | 0 <= i < |init| :: init[i] == launches[i];
  }

  lemma SubsetSize<T>(a: set<T>, b: set<T>)
    requires a <= b
    ensures |a| <= |b|
  {
    assert b == a + (b - a);
    assert |a + (b - a)| == |a| + |b - a|;
  }

  lemma ReservedOnce(s: MV.Store, a: Artifact, job: Wire)
    requires MV.DurableInv(s) && EverReserved(s, a, job)
    ensures MV.TallyOf(s.rows, a, job, MV.Reserved) > 0
  {
    var t := s.(journal := s.rows);
    SameTables(s, t);
    assert MV.Ledger(t, a, job);
  }

  lemma TalliesDiffer(s: MV.Store, a: Artifact)
    requires MV.DurableInv(s)
    ensures MV.Tally(s.rows, a, MV.Reserved) == MV.Tally(s.rows, a, MV.RecoveryAuthorized) + if a in s.attempts then 1 else 0
  {
  }

  /** An artifact's workload is launched at most once per operator recovery, plus once. */
  lemma LaunchesBoundedByRecoveries(maxAge: nat, namespace: string, steps: seq<Step>, w: World, a: Artifact)
    requires Reaches(maxAge, namespace, steps, w)
    ensures LaunchCount(w.launches, a) <= MV.Tally(w.store.rows, a, MV.Reserved)
    ensures LaunchCount(w.launches, a) <= MV.Tally(w.store.rows, a, MV.RecoveryAuthorized) + 1
  {
    ReachableInv(maxAge, namespace, steps, w);
    hide MV.DurableInv;
    TalliesDiffer(w.store, a);
    LaunchedWiresCounted(w.launches, a);
    ReservedWiresCounted(w.store.rows, a);
    forall job | job in LaunchedWires(w.launches, a) ensures job in ReservedWires(w.store.rows, a) {
      var i :| 0 <= i < |w.launches| && w.launches[i].artifact == a && w.launches[i].request == job;
      assert EverReserved(w.store, a, job);
      ReservedOnce(w.store, a, job);
      MV.TallyOfWitness(w.store.rows, a, job, MV.Reserved);
    }
    SubsetSize(LaunchedWires(w.launches, a), ReservedWires(w.store.rows, a));
  }

  /**
   Two launches for one artifact answer different requests, and each began when the other's
   request would have been refused.
   */
  lemma LaunchesNeverShareAWindow(maxAge: nat, namespace: string, steps: seq<Step>, w: World, i: nat, j: nat)
    requires Reaches(maxAge, namespace, steps, w)
    requires i < j < |w.launches| && w.launches[i].artifact == w.launches[j].artifact
    ensures w.launches[i].request != w.launches[j].request
    ensures !Accepts(w.launches[i].request, w.launches[j].at) && !Accepts(w.launches[j].request, w.launches[i].at)
  {
    ReachableInv(maxAge, namespace, steps, w);
    var a, r1, r2 := w.launches[i].artifact, w.launches[i].request, w.launches[j].request;
    assert (a, r1) in w.sent && (a, r2) in w.sent;
    LeaseExclusion(maxAge, namespace, steps, w, a, r1, r2, w.launches[i].at);
    LeaseExclusion(maxAge, namespace, steps, w, a, r1, r2, w.launches[j].at);
  }

  /** A stored receipt is the worker's answer to exactly this request, launched once inside its window. */
  lemma CompletedAttemptWasRun(maxAge: nat, namespace: string, steps: seq<Step>, w: World, a: Artifact)
    requires Reaches(maxAge, namespace, steps, w)
    requires a in w.store.attempts && w.store.attempts[a].receipt.Some?
    ensures var job := w.store.attempts[a].request;
            && w.store.attempts[a].receipt.value.artifact == a
            && exists i | 0 <= i < |w.launches| ::
                 && w.launches[i].artifact == a && w.launches[i].request == job && Accepts(job, w.launches[i].at)
                 && forall j | 0 <= j < |w.launches| && w.launches[j].request == job :: j == i
  {
    ReachableInv(maxAge, namespace, steps, w);
    var job := w.store.attempts[a].request;
    assert Response(a, job, w.store.attempts[a].receipt.value) in w.responses;
    assert Launched(w.launches, a, job);
    var i :| 0 <= i < |w.launches| && w.launches[i].artifact == a && w.launches[i].request == job;
    assert forall j | 0 <= j < |w.launches| && j != i :: w.launches[j].request.nonce != w.launches[i].request.nonce;
  }

  // ---- Progress ----

  lemma RunStep(w: World, s: Step, v: World, rest: seq<Step>)
    requires Apply(w, s) == Some(v)
    ensures Run(w, [s] + rest) == Run(v, rest)
  {
    hide Apply;
    assert ([s] + rest)[1..] == rest;
  }

  lemma RunNothing(w: World)
    ensures Run(w, []) == Some(w)
  {
  }

  lemma RunFour(w: World, s1: Step, w1: World, s2: Step, w2: World, s3: Step, w3: World, s4: Step, w4: World)
    requires Apply(w, s1) == Some(w1) && Apply(w1, s2) == Some(w2) && Apply(w2, s3) == Some(w3) && Apply(w3, s4) == Some(w4)
    ensures Run(w, [s1] + ([s2] + ([s3] + ([s4] + [])))) == Some(w4)
  {
    hide *;
    RunStep(w3, s4, w4, []);
    RunStep(w2, s3, w3, [s4] + []);
    RunStep(w1, s2, w2, [s3] + ([s4] + []));
    RunStep(w, s1, w1, [s2] + ([s3] + ([s4] + [])));
    RunNothing(w4);
  }

  lemma {:induction false} RunAppend(w: World, first: seq<Step>, rest: seq<Step>)
    requires Run(w, first).Some?
    ensures Run(w, first + rest) == Run(Run(w, first).value, rest)
    decreases |first|
  {
    hide Apply;
    if first == [] {
      assert first + rest == rest;
    } else {
      assert (first + rest)[1..] == first[1..] + rest;
      RunAppend(Apply(w, first[0]).value, first[1..], rest);
    }
  }

  function JobAt(w: World, nonce: string, timeout: nat, size: nat, rest: string): Wire {
    MV.Wire(nonce, Some(w.clock), Some(w.clock + timeout + GRACE_SECONDS), size, rest)
  }

  /** Nothing stands in the way of a new request for the artifact. */
  ghost predicate Ready(w: World, a: Artifact, nonce: string, size: nat) {
    && w.responder.Idle? && InStep(w.store) && w.worker.Resting? && a !in w.store.attempts
    && nonce !in w.drawn && nonce !in w.ledger.requests && |w.ledger.requests| < Jobs.MAX_REQUESTS
    && size <= MV.MAX_REQUEST_BYTES && |w.store.rows| < MV.MAX_I64 && MV.ScopeSettled(w.store.rows, a)
  }

  lemma ReserveEffect(s: MV.Store, a: Artifact, job: Wire)
    requires s.journal == s.rows && a !in s.attempts && !MV.Recovered(s, a, job) && job.size <= MV.MAX_REQUEST_BYTES
    requires |s.rows| <= MV.MAX_I64 && MV.ScopeSettled(s.rows, a)
    ensures var r := MV.ReserveTx(s, a, job);
            && r.Ok? && r.value.1
            && var t := r.value.0;
            && t.attempts == s.attempts[a := MV.Attempt(job, None)] && t.journal == t.rows && |t.rows| == |s.rows| + 1
            && MV.ScopeSettled(t.rows, a)
  {
    hide MV.ScopeSettled, MV.FirstPrepared;
    ValidationKeepsScope(s.rows, MV.ScopedRow(s.rows, a, MV.Validation(a, job, MV.Reserved, job.issuedAt, None)), a);
  }

  lemma ValidationKeepsScope(rows: seq<MV.Row>, r: MV.Row, a: Artifact)
    requires MV.ScopeSettled(rows, a) && r.event.Validation?
    ensures MV.ScopeSettled(rows + [r], a)
  {
    assert (rows + [r])[..|rows|] == rows;
    var i := MV.FirstPrepared(rows + [r], a);
    assert i < |rows| ==> MV.FirstPrepared(rows, a) == i;
    assert forall j | 0 <= j < |rows + [r]| && (rows + [r])[j].event == MV.Prepared(a) :: j < |rows| && (rows + [r])[j] == rows[j];
  }

  lemma CompleteEffect(s: MV.Store, receipt: MV.Receipt, job: Wire)
    requires s.journal == s.rows && receipt.artifact in s.attempts && s.attempts[receipt.artifact] == MV.Attempt(job, None)
    requires |s.rows| <= MV.MAX_I64 && MV.ScopeSettled(s.rows, receipt.artifact)
    ensures MV.CompleteTx(s, receipt, job, Some(0)).Ok?
    ensures MV.CompleteTx(s, receipt, job, Some(0)).value.attempts == s.attempts[receipt.artifact := MV.Attempt(job, Some(receipt))]
  {
    hide MV.ScopeSettled, MV.FirstPrepared;
  }

  /** Reserve and send. */
  function Asking(a: Artifact, nonce: string, timeout: nat, size: nat, rest: string): seq<Step> {
    [CheckAttempt(a)] + ([BuildJob(nonce, timeout, size, rest)] + ([ReserveJob] + ([Dispatch] + [])))
  }

  /** Admit, claim, launch, finish and answer. */
  function Answering(a: Artifact, job: Wire, body: string): seq<Step> {
    [Admit(a, job)] + ([ClaimNonce] + ([LaunchWorkload] + ([FinishWorkload] + ([Respond(body)] + []))))
  }

  function Importing(receipt: MV.Receipt): seq<Step> {
    [ReceiveResponse(receipt)] + ([CompleteJob(0)] + [])
  }

  lemma AskingReserves(w: World, a: Artifact, nonce: string, timeout: nat, size: nat, rest: string) returns (v: World)
    requires Inv(w) && Ready(w, a, nonce, size)
    ensures Run(w, Asking(a, nonce, timeout, size, rest)) == Some(v)
    ensures var job := JobAt(w, nonce, timeout, size, rest);
            && v.responder == Awaiting(a, job) && v.worker.Resting? && (a, job) in v.sent && v.clock == w.clock && v.maxAge == w.maxAge
            && v.ledger == w.ledger && v.launches == w.launches && v.responses == w.responses
            && v.store.attempts == w.store.attempts[a := MV.Attempt(job, None)]
            && v.store.journal == v.store.rows && |v.store.rows| <= MV.MAX_I64 && MV.ScopeSettled(v.store.rows, a)
  {
    hide Inv, MV.ReserveTx, MV.ScopeSettled, Run, MV.Recovered;
    var job := JobAt(w, nonce, timeout, size, rest);
    NeverReserved(w, a, job);
    ReserveEffect(w.store, a, job);
    var w1 := w.(responder := Checked(a));
    var w2 := w1.(drawn := w.drawn[nonce := (a, job)], responder := Built(a, job));
    var w3 := w2.(store := MV.ReserveTx(w.store, a, job).value.0, responder := Reserved(a, job));
    v := w3.(sent := w.sent + {(a, job)}, responder := Awaiting(a, job));
    CheckStep(w, a);
    BuildStep(w1, a, nonce, timeout, size, rest);
    ReserveStep(w2, a, job);
    DispatchStep(w3, a, job);
    hide Apply;
    RunFour(w, CheckAttempt(a), w1, BuildJob(nonce, timeout, size, rest), w2, ReserveJob, w3, Dispatch, v);
  }

  lemma CheckStep(w: World, a: Artifact)
    requires w.responder.Idle? && a !in w.store.attempts
    ensures Apply(w, CheckAttempt(a)) == Some(w.(responder := Checked(a)))
  {
  }

  lemma BuildStep(w: World, a: Artifact, nonce: string, timeout: nat, size: nat, rest: string)
    requires w.responder == Checked(a) && nonce !in w.drawn
    ensures var job := JobAt(w, nonce, timeout, size, rest);
            Apply(w, BuildJob(nonce, timeout, size, rest)) == Some(w.(drawn := w.drawn[nonce := (a, job)], responder := Built(a, job)))
  {
  }

  lemma ReserveStep(w: World, a: Artifact, job: Wire)
    requires w.responder == Built(a, job)
    requires var r := MV.ReserveTx(w.store, a, job); r.Ok? && r.value.1
    ensures Apply(w, ReserveJob) == Some(w.(store := MV.ReserveTx(w.store, a, job).value.0, responder := Reserved(a, job)))
  {
    hide MV.ReserveTx;
  }

  lemma DispatchStep(w: World, a: Artifact, job: Wire)
    requires w.responder == Reserved(a, job) && Accepts(job, w.clock)
    ensures Apply(w, Dispatch) == Some(w.(sent := w.sent + {(a, job)}, responder := Awaiting(a, job)))
  {
  }

  lemma NeverReserved(w: World, a: Artifact, job: Wire)
    requires Inv(w) && InStep(w.store) && job.nonce !in w.drawn
    ensures !MV.Recovered(w.store, a, job) && w.store.journal == w.store.rows
  {
    hide MV.Recovered, MV.Current;
    assert w.store.rows[..|w.store.rows|] == w.store.rows;
    assert !EverReserved(w.store, a, job);
  }

  lemma AnsweringLaunches(w: World, a: Artifact, job: Wire, body: string) returns (v: World)
    requires w.worker.Resting? && (a, job) in w.sent && Accepts(job, w.clock)
    requires job.nonce !in w.ledger.requests && |w.ledger.requests| < Jobs.MAX_REQUESTS
    ensures Run(w, Answering(a, job, body)) == Some(v)
    ensures v == w.(ledger := v.ledger, launches := w.launches + [Launch(a, job, w.clock)],
                    responses := w.responses + {Response(a, job, MV.Receipt(a, w.clock, body))})
  {
    var w1 := w.(worker := Admitted(a, job));
    var w2 := w1.(ledger := Jobs.ClaimRequestTx(w.ledger, job.nonce).value, worker := Claimed(a, job));
    var w3 := w2.(launches := w.launches + [Launch(a, job, w.clock)], worker := Running(a, job));
    var w4 := w3.(worker := Finished(a, job, w.clock));
    v := w4.(responses := w.responses + {Response(a, job, MV.Receipt(a, w.clock, body))}, worker := Resting);
    AdmitStep(w, a, job);
    ClaimStep(w1, a, job);
    LaunchStep(w2, a, job);
    FinishStep(w3, a, job);
    RespondStep(w4, a, job, w.clock, body);
    hide Apply, Run, Accepts;
    RunFour(w1, ClaimNonce, w2, LaunchWorkload, w3, FinishWorkload, w4, Respond(body), v);
    RunStep(w, Admit(a, job), w1, [ClaimNonce] + ([LaunchWorkload] + ([FinishWorkload] + ([Respond(body)] + []))));
  }

  lemma AdmitStep(w: World, a: Artifact, job: Wire)
    requires w.worker.Resting? && (a, job) in w.sent && Accepts(job, w.clock)
    ensures Apply(w, Admit(a, job)) == Some(w.(worker := Admitted(a, job)))
  {
  }

  lemma ClaimStep(w: World, a: Artifact, job: Wire)
    requires w.worker == Admitted(a, job) && job.nonce !in w.ledger.requests && |w.ledger.requests| < Jobs.MAX_REQUESTS
    ensures Jobs.ClaimRequestTx(w.ledger, job.nonce).Ok?
    ensures Apply(w, ClaimNonce) == Some(w.(ledger := Jobs.ClaimRequestTx(w.ledger, job.nonce).value, worker := Claimed(a, job)))
  {
  }

  lemma LaunchStep(w: World, a: Artifact, job: Wire)
    requires w.worker == Claimed(a, job) && Accepts(job, w.clock)
    ensures Apply(w, LaunchWorkload) == Some(w.(launches := w.launches + [Launch(a, job, w.clock)], worker := Running(a, job)))
  {
  }

  lemma FinishStep(w: World, a: Artifact, job: Wire)
    requires w.worker == Running(a, job)
    ensures Apply(w, FinishWorkload) == Some(w.(worker := Finished(a, job, w.clock)))
  {
  }

  lemma RespondStep(w: World, a: Artifact, job: Wire, at: nat, body: string)
    requires w.worker == Finished(a, job, at) && Accepts(job, w.clock)
    ensures Apply(w, Respond(body))
            == Some(w.(responses := w.responses + {Response(a, job, MV.Receipt(a, at, body))}, worker := Resting))
  {
  }

  lemma ImportingCompletes(w: World, a: Artifact, job: Wire, receipt: MV.Receipt) returns (v: World)
    requires w.responder == Awaiting(a, job) && Response(a, job, receipt) in w.responses
    requires Imports(job, a, receipt, w.clock, w.maxAge)
    requires a in w.store.attempts && w.store.attempts[a] == MV.Attempt(job, None) && w.store.journal == w.store.rows
    requires |w.store.rows| <= MV.MAX_I64 && MV.ScopeSettled(w.store.rows, a)
    ensures Run(w, Importing(receipt)) == Some(v)
    ensures v == w.(store := v.store, responder := Idle)
    ensures v.store.attempts == w.store.attempts[a := MV.Attempt(job, Some(receipt))]
  {
    CompleteEffect(w.store, receipt, job);
    hide MV.CompleteTx, Run;
    var w1 := w.(responder := Received(a, job, receipt));
    assert Apply(w, ReceiveResponse(receipt)) == Some(w1);
    v := w1.(store := MV.CompleteTx(w.store, receipt, job, Some(0)).value, responder := Idle);
    assert Apply(w1, CompleteJob(0)) == Some(v);
    RunStep(w1, CompleteJob(0), v, []);
    RunStep(w, ReceiveResponse(receipt), w1, [CompleteJob(0)] + []);
    RunNothing(v);
  }

  /**
   Progress: in any reachable world where nothing is in the way, the responder and the worker, left
   undisturbed, bring a new request to a stored receipt with exactly one more launch.
   */
  lemma UndisturbedRequestCompletes(w: World, a: Artifact, nonce: string, timeout: nat, size: nat, rest: string, body: string)
    requires Inv(w) && Ready(w, a, nonce, size)
    ensures var job := JobAt(w, nonce, timeout, size, rest);
            var receipt := MV.Receipt(a, w.clock, body);
            var end := Run(w, Asking(a, nonce, timeout, size, rest) + (Answering(a, job, body) + Importing(receipt)));
            && end.Some? && Inv(end.value)
            && end.value.store.attempts == w.store.attempts[a := MV.Attempt(job, Some(receipt))]
            && end.value.launches == w.launches + [Launch(a, job, w.clock)]
            && end.value.responder.Idle? && end.value.worker.Resting?
  {
    hide Inv, Run, Asking, Answering, Importing, MV.ScopeSettled;
    var job := JobAt(w, nonce, timeout, size, rest);
    var receipt := MV.Receipt(a, w.clock, body);
    var asked := AskingReserves(w, a, nonce, timeout, size, rest);
    var answered := AnsweringLaunches(asked, a, job, body);
    var done := ImportingCompletes(answered, a, job, receipt);
    RunAppend(asked, Answering(a, job, body), Importing(receipt));
    RunAppend(w, Asking(a, nonce, timeout, size, rest), Answering(a, job, body) + Importing(receipt));
    RunKeepsInv(w, Asking(a, nonce, timeout, size, rest) + (Answering(a, job, body) + Importing(receipt)));
  }

  // ---- What each side accepts, exactly ----

  /** The clock is inside the request's half-open window. */
  ghost predicate Open(job: Wire, clock: nat) {
    match (job.issuedAt, job.expiresAt)
    case (Some(from), Some(to)) => from <= clock && clock < to
    case _ => false
  }

  /**
   A response is imported if and only if the worker wrote it for the request awaited, about this
   artifact, and the clock is inside the request's window and no earlier than the completion, which is
   no earlier than the request and no older than the maximal age.
   */
  lemma ImportsExactly(w: World, receipt: MV.Receipt)
    ensures var v := Apply(w, ReceiveResponse(receipt));
            && (v.Some? <==>
                  && w.responder.Awaiting? && Response(w.responder.artifact, w.responder.request, receipt) in w.responses
                  && receipt.artifact == w.responder.artifact && Open(w.responder.request, w.clock)
                  && w.responder.request.issuedAt.value <= receipt.completedAt
                  && receipt.completedAt <= w.clock && w.clock <= receipt.completedAt + w.maxAge)
            && (v.Some? ==> v.value == w.(responder := Received(w.responder.artifact, w.responder.request, receipt)))
  {
  }

  /** A request is drawn for the checked artifact under a new nonce; its window ends a minute behind the timeout. */
  lemma BuildsExactly(w: World, nonce: string, timeout: nat, size: nat, rest: string)
    ensures var v := Apply(w, BuildJob(nonce, timeout, size, rest));
            && (v.Some? <==> w.responder.Checked? && nonce !in w.drawn)
            && (v.Some? ==>
                  var job := v.value.responder.request;
                  && v.value.responder == Built(w.responder.artifact, job)
                  && job.nonce == nonce && job.size == size && job.rest == rest
                  && (forall t: nat :: Open(job, t) <==> w.clock <= t < w.clock + timeout + 60)
                  && v.value == w.(responder := v.value.responder, drawn := w.drawn[nonce := (w.responder.artifact, job)]))
  {
    if w.responder.Checked? && nonce !in w.drawn {
      var v := Apply(w, BuildJob(nonce, timeout, size, rest)).value;
      assert v.responder.request.issuedAt == Some(w.clock) && v.responder.request.expiresAt == Some(w.clock + timeout + 60);
      assert Open(v.responder.request, w.clock) <==> w.clock <= w.clock < w.clock + timeout + 60;
    }
  }

  /** Outside the window nothing is sent, admitted, launched or answered; inside it everything asked for is. */
  lemma WindowDecides(w: World, a: Artifact, job: Wire, body: string)
    ensures w.responder == Reserved(a, job) ==>
              Apply(w, Dispatch) == Some(if Open(job, w.clock) then w.(sent := w.sent + {(a, job)}, responder := Awaiting(a, job))
                                         else w.(responder := Failing(a, job)))
    ensures Apply(w, Admit(a, job)) == if w.worker.Resting? && (a, job) in w.sent && Open(job, w.clock)
                                       then Some(w.(worker := Admitted(a, job))) else None
    ensures w.worker == Claimed(a, job) ==>
              Apply(w, LaunchWorkload) == Some(if Open(job, w.clock)
                                               then w.(launches := w.launches + [Launch(a, job, w.clock)], worker := Running(a, job))
                                               else w.(worker := Resting))
    ensures w.worker == Running(a, job) ==> Apply(w, FinishWorkload) == Some(w.(worker := Finished(a, job, w.clock)))
    ensures w.worker.Finished? && w.worker.artifact == a && w.worker.request == job ==>
              Apply(w, Respond(body)) == Some(if Open(job, w.clock)
                                              then w.(responses := w.responses + {Response(a, job, MV.Receipt(a, w.worker.completedAt, body))}, worker := Resting)
                                              else w.(worker := Resting))
  {
  }

  /** A nonce is claimed if and only if it was never claimed and the ledger has room; then it is claimed for good. */
  lemma ClaimsExactly(w: World, a: Artifact, job: Wire)
    requires w.worker == Admitted(a, job)
    ensures var v := Apply(w, ClaimNonce);
            && v.Some? && (v.value.worker == Claimed(a, job) <==> job.nonce !in w.ledger.requests && |w.ledger.requests| < 4096)
            && (v.value.worker == Claimed(a, job) ==> v.value.ledger == w.ledger.(requests := w.ledger.requests + {job.nonce}))
            && (v.value.worker != Claimed(a, job) ==> v.value == w.(worker := Resting))
  {
  }

  /**
   Each operation of the store is open to a responder at one place only and makes of the tables what the
   store does: reserving, storing the receipt received, recording the failure met; afterwards it is idle,
   unless it reserved. Operators recover only while no attempt check is under way.
   */
  lemma StoreStepsExactly(w: World, elapsed: nat, a: Artifact, job: Wire, uid: nat, gid: nat, reason: string)
    ensures Apply(w, ReserveJob) == if !w.responder.Built? then None else
              match MV.ReserveTx(w.store, w.responder.artifact, w.responder.request)
              case Err(_) => Some(w.(responder := Idle))
              case Ok((store, true)) => Some(w.(store := store, responder := Reserved(w.responder.artifact, w.responder.request)))
              case Ok((store, false)) => Some(w.(store := store, responder := Idle))
    ensures Apply(w, CompleteJob(elapsed)) == if !w.responder.Received? then None else
              match MV.CompleteTx(w.store, w.responder.receipt, w.responder.request, Some(elapsed))
              case Err(_) => Some(w.(responder := Idle))
              case Ok(store) => Some(w.(store := store, responder := Idle))
    ensures Apply(w, RecordFailure(elapsed)) == if !w.responder.Failing? then None else
              match MV.FailTx(w.store, w.responder.artifact, w.responder.request, elapsed)
              case Err(_) => Some(w.(responder := Idle))
              case Ok(store) => Some(w.(store := store, responder := Idle))
    ensures Apply(w, OperatorRecovers(a, job, uid, gid, reason)) == if w.responder.Checked? || w.responder.Built? then None else
              match MV.RecoverTx(w.store, a, job, uid, gid, reason, w.clock)
              case Err(_) => Some(w)
              case Ok((store, _)) => Some(w.(store := store))
  {
    hide MV.ReserveTx, MV.CompleteTx, MV.FailTx, MV.RecoverTx;
  }

  /** A responder checks while idle and only an artifact without an attempt; losing the worker's answer it has failed. */
  lemma ResponderMovesExactly(w: World, a: Artifact)
    ensures Apply(w, CheckAttempt(a)) == if w.responder == Idle && a !in w.store.attempts then Some(w.(responder := Checked(a))) else None
    ensures Apply(w, TransportFails) == if !w.responder.Awaiting? then None
                                        else Some(w.(responder := Failing(w.responder.artifact, w.responder.request)))
    ensures Apply(w, ResponderCancelled) == Some(w.(responder := Idle))
    ensures Apply(w, ResponderCrashes) == Some(w.(responder := Idle, store := w.store.(journal := w.store.rows)))
    ensures Apply(w, WorkerCrashes) == Some(w.(worker := Resting))
  {
  }

  /** What any number of processes adds: time passes, one comes in reading the table, and turns exchange memory and place. */
  lemma SharingExactly(w: World, seconds: nat, i: nat)
    ensures Apply(w, Tick(seconds)) == Some(w.(clock := w.clock + seconds))
    ensures Apply(w, StartResponder) == Some(w.(others := w.others + [Process(w.store.rows, Idle)]))
    ensures Apply(w, Turn(i)) == if i >= |w.others| then None
                                 else Some(w.(store := w.store.(journal := w.others[i].memory), responder := w.others[i].at,
                                              others := w.others[i := Process(w.store.journal, w.responder)]))
  {
  }

  /** A step that writes the store may take effect unreported: the tables are as if it was, memory and whoever was told are not. */
  lemma UnreportedExactly(w: World, s: Step)
    ensures var writes := s.ReserveJob? || s.CompleteJob? || s.RecordFailure? || s.OperatorRecovers? || s.OtherFact?;
            && (Apply(w, Unreported(s)).Some? <==> writes && Apply(w, s).Some?)
            && (Apply(w, Unreported(s)).Some? ==>
                  var (v, u) := (Apply(w, s).value, Apply(w, Unreported(s)).value);
                  && u.store == v.store.(journal := w.store.journal)
                  && u.responder == (if s.OperatorRecovers? || s.OtherFact? then w.responder else Idle)
                  && u == v.(store := u.store, responder := u.responder))
  {
    hide Stores, Reserves;
  }
}
