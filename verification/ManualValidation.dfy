/**
 The responder's durable validation attempts (src/reasoning/storage/manual_validation.rs). Each
 operation is one immediate SQLite transaction over the attempts, recoveries and journal tables
 that also appends the committed fact to the in-memory journal; a refused operation changes nothing.
 Digests are injective, so a request stands for its own digest and an artifact for its candidate.
 */
module ManualValidation {
  import opened Outcomes
  import Text

  const MAX_REQUEST_BYTES: nat := 16 * 1024
  const MAX_REASON_BYTES: nat := 512
  const MAX_I64: nat := 0x7fff_ffff_ffff_ffff
  const MAX_U64: nat := 0xffff_ffff_ffff_ffff

  datatype StoreError = InvalidDeployment | NonContiguousSequence | Sqlite

  /** Candidate identity; the canonical JSON it digests names the incident and the run. */
  datatype Artifact = Artifact(incident: string, run: string, content: string)

  /** The request as serialized: its nonce, its acceptance window and its remaining bytes. */
  datatype Wire = Wire(nonce: string, issuedAt: Option<nat>, expiresAt: Option<nat>, size: nat, rest: string)

  datatype Receipt = Receipt(artifact: Artifact, completedAt: nat, body: string)

  datatype Attempt = Attempt(request: Wire, receipt: Option<Receipt>)

  datatype Recovery = Recovery(artifact: Artifact, request: Wire, receipt: Option<Receipt>,
                               uid: nat, gid: nat, reason: string, recoveredAt: nat)

  datatype Stage = ResponseFailed | Reserved | ReceiptReceived | RecoveryAuthorized

  datatype Event =
    | Prepared(artifact: Artifact)
    | Validation(artifact: Artifact, request: Wire, stage: Stage, at: Option<nat>, elapsedMs: Option<nat>)
    | Other(tag: string)

  datatype Row = Row(incident: Option<string>, run: Option<string>, event: Event)

  datatype Store = Store(attempts: map<Artifact, Attempt>, recoveries: seq<Recovery>, rows: seq<Row>, journal: seq<Row>)

  const EMPTY: Store := Store(map[], [], [], [])

  predicate Recovered(s: Store, a: Artifact, w: Wire) {
    exists i | 0 <= i < |s.recoveries| :: s.recoveries[i].artifact == a && s.recoveries[i].request == w
  }

  /** The earliest preparation of the artifact; its scope is the one every transition must carry. */
  function FirstPrepared(rows: seq<Row>, a: Artifact): (i: nat)
    ensures i <= |rows|
    ensures i < |rows| ==> rows[i].event == Prepared(a)
    ensures forall j | 0 <= j < i :: rows[j].event != Prepared(a)
  {
    if rows == [] then 0
    else
      var i := FirstPrepared(rows[..|rows| - 1], a);
      if i < |rows| - 1 || rows[|rows| - 1].event == Prepared(a) then i else |rows|
  }

  /** No distinct second scope, and the one there is carries both identities or neither. */
  predicate ScopeSettled(rows: seq<Row>, a: Artifact) {
    var i := FirstPrepared(rows, a);
    i < |rows| ==>
      && (rows[i].incident.Some? <==> rows[i].run.Some?)
      && forall j | 0 <= j < |rows| && rows[j].event == Prepared(a) ::
           rows[j].incident == rows[i].incident && rows[j].run == rows[i].run
  }

  function ScopedRow(rows: seq<Row>, a: Artifact, event: Event): Row {
    var i := FirstPrepared(rows, a);
    if i < |rows| then Row(rows[i].incident, rows[i].run, event) else Row(None, None, event)
  }

  /** Appends one transition fact under the artifact's prepared scope. */
  function RecordTx(s: Store, a: Artifact, w: Wire, stage: Stage, at: Option<nat>, elapsedMs: Option<nat>): Result<Store, StoreError> {
    if |s.rows| != |s.journal| || |s.journal| > MAX_I64 then Err(NonContiguousSequence)
    else if !ScopeSettled(s.rows, a) then Err(InvalidDeployment)
    else
      var row := ScopedRow(s.rows, a, Validation(a, w, stage, at, elapsedMs));
      Ok(s.(rows := s.rows + [row], journal := s.journal + [row]))
  }

  function ReserveTx(s: Store, a: Artifact, w: Wire): Result<(Store, bool), StoreError> {
    if w.size > MAX_REQUEST_BYTES then Err(InvalidDeployment)
    else if a in s.attempts || Recovered(s, a, w) then Ok((s, false))
    else match RecordTx(s.(attempts := s.attempts[a := Attempt(w, None)]), a, w, Reserved, w.issuedAt, None)
      case Err(e) => Err(e)
      case Ok(t) => Ok((t, true))
  }

  function CompleteTx(s: Store, receipt: Receipt, w: Wire, elapsedMs: Option<nat>): Result<Store, StoreError> {
    var a := receipt.artifact;
    if elapsedMs.Some? && elapsedMs.value > MAX_U64 then Err(InvalidDeployment)
    else if a !in s.attempts || s.attempts[a] != Attempt(w, None) then Err(InvalidDeployment)
    else RecordTx(s.(attempts := s.attempts[a := Attempt(w, Some(receipt))]), a, w, ReceiptReceived,
                  Some(receipt.completedAt), elapsedMs)
  }

  predicate FailureRecorded(rows: seq<Row>, a: Artifact, w: Wire) {
    exists i | 0 <= i < |rows| :: IsFact(rows[i], a, w, ResponseFailed)
  }

  function FailTx(s: Store, a: Artifact, w: Wire, elapsedMs: nat): Result<Store, StoreError> {
    if elapsedMs > MAX_U64 then Err(InvalidDeployment)
    else if a !in s.attempts || s.attempts[a] != Attempt(w, None) then Err(InvalidDeployment)
    else if FailureRecorded(s.rows, a, w) then Ok(s)
    else RecordTx(s, a, w, ResponseFailed, None, Some(elapsedMs))
  }

  predicate ReasonAccepted(reason: string) {
    !Text.Blank(reason) && Text.Utf8Length(reason) <= MAX_REASON_BYTES
    && forall i | 0 <= i < |reason| :: !Text.IsControl(reason[i])
  }

  /** Archives an expired attempt on an authenticated operator's word and frees its artifact. */
  function RecoverTx(s: Store, a: Artifact, expected: Wire, uid: nat, gid: nat, reason: string, now: nat): Result<(Store, bool), StoreError> {
    if !ReasonAccepted(reason) || now > MAX_I64 then Err(InvalidDeployment)
    else if a !in s.attempts then Ok((s, false))
    else
      var previous := s.attempts[a];
      if previous.request != expected || previous.request.expiresAt.None? || now <= previous.request.expiresAt.value then Ok((s, false))
      else if Recovered(s, a, expected) then Err(Sqlite)
      else
        var archived := s.(recoveries := s.recoveries + [Recovery(a, expected, previous.receipt, uid, gid, reason, now)],
                           attempts := s.attempts - {a});
        match RecordTx(archived, a, expected, RecoveryAuthorized, Some(now), None)
        case Err(e) => Err(e)
        case Ok(t) => Ok((t, true))
  }

  // ---- Counting facts ----

  predicate IsStage(r: Row, a: Artifact, stage: Stage) {
    r.event.Validation? && r.event.artifact == a && r.event.stage == stage
  }

  predicate IsFact(r: Row, a: Artifact, w: Wire, stage: Stage) {
    IsStage(r, a, stage) && r.event.request == w
  }

  function Tally(rows: seq<Row>, a: Artifact, stage: Stage): nat {
    if rows == [] then 0
    else Tally(rows[..|rows| - 1], a, stage) + if IsStage(rows[|rows| - 1], a, stage) then 1 else 0
  }

  function TallyOf(rows: seq<Row>, a: Artifact, w: Wire, stage: Stage): nat {
    if rows == [] then 0
    else TallyOf(rows[..|rows| - 1], a, w, stage) + if IsFact(rows[|rows| - 1], a, w, stage) then 1 else 0
  }

  function TallyStage(rows: seq<Row>, stage: Stage): nat {
    if rows == [] then 0
    else TallyStage(rows[..|rows| - 1], stage)
         + if rows[|rows| - 1].event.Validation? && rows[|rows| - 1].event.stage == stage then 1 else 0
  }

  lemma TallyAppend(rows: seq<Row>, r: Row)
    ensures forall a, stage :: Tally(rows + [r], a, stage) == Tally(rows, a, stage) + if IsStage(r, a, stage) then 1 else 0
    ensures forall a, w, stage ::
              TallyOf(rows + [r], a, w, stage) == TallyOf(rows, a, w, stage) + if IsFact(r, a, w, stage) then 1 else 0
    ensures forall stage :: TallyStage(rows + [r], stage)
              == TallyStage(rows, stage) + if r.event.Validation? && r.event.stage == stage then 1 else 0
  {
    assert (rows + [r])[..|rows|] == rows;
  }

  lemma {:induction false} TallyOfWitness(rows: seq<Row>, a: Artifact, w: Wire, stage: Stage)
    ensures TallyOf(rows, a, w, stage) > 0 <==> exists i | 0 <= i < |rows| :: IsFact(rows[i], a, w, stage)
  {
    if rows != [] {
      TallyOfWitness(rows[..|rows| - 1], a, w, stage);
      if i :| 0 <= i < |rows| && IsFact(rows[i], a, w, stage) {
        assert i < |rows| - 1 ==> rows[..|rows| - 1][i] == rows[i];
      }
    }
  }

  // ---- Runs ----

  datatype Op =
    | Reserve(artifact: Artifact, request: Wire)
    | Complete(receipt: Receipt, request: Wire, elapsed: Option<nat>)
    | Fail(artifact: Artifact, request: Wire, elapsedMs: nat)
    | Recover(artifact: Artifact, request: Wire, uid: nat, gid: nat, reason: string, now: nat)
    | Append(row: Row)
    | Reopen
    | Unreported(op: Op)

  /**
   One operation. An error leaves the store as it was, a reopen rebuilds memory from the table, and
   an unreported commit takes effect in the tables only, since the caller is told it failed.
   */
  function Apply(s: Store, op: Op): Store
    decreases op
  {
    match op
    case Reserve(a, w) => (match ReserveTx(s, a, w) case Ok(out) => out.0 case Err(_) => s)
    case Complete(receipt, w, elapsed) => (match CompleteTx(s, receipt, w, elapsed) case Ok(t) => t case Err(_) => s)
    case Fail(a, w, elapsed) => (match FailTx(s, a, w, elapsed) case Ok(t) => t case Err(_) => s)
    case Recover(a, w, uid, gid, reason, now) =>
      (match RecoverTx(s, a, w, uid, gid, reason, now) case Ok(out) => out.0 case Err(_) => s)
    case Append(row) =>
      if row.event.Validation? || |s.rows| != |s.journal| then s else s.(rows := s.rows + [row], journal := s.journal + [row])
    case Reopen => s.(journal := s.rows)
    case Unreported(inner) => Apply(s, inner).(journal := s.journal)
  }

  function Run(s: Store, ops: seq<Op>): Store
    decreases |ops|
  {
    if ops == [] then s else Run(Apply(s, ops[0]), ops[1..])
  }

  /** A history is made of its steps, each taken where the one before ended. */
  lemma {:induction false} RunAppends(s: Store, ops: seq<Op>, op: Op)
    ensures Run(s, []) == s
    ensures var (t, u) := (Run(s, ops), Run(s, ops + [op]));
            match op
            case Reserve(a, w) => u == if ReserveTx(t, a, w).Ok? then ReserveTx(t, a, w).value.0 else t
            case Complete(receipt, w, elapsed) => u == if CompleteTx(t, receipt, w, elapsed).Ok? then CompleteTx(t, receipt, w, elapsed).value else t
            case Fail(a, w, elapsed) => u == if FailTx(t, a, w, elapsed).Ok? then FailTx(t, a, w, elapsed).value else t
            case Recover(a, w, uid, gid, reason, now) =>
              u == if RecoverTx(t, a, w, uid, gid, reason, now).Ok? then RecoverTx(t, a, w, uid, gid, reason, now).value.0 else t
            case Append(row) =>
              u == if !row.event.Validation? && |t.rows| == |t.journal| then Store(t.attempts, t.recoveries, t.rows + [row], t.journal + [row]) else t
            case Reopen => u == Store(t.attempts, t.recoveries, t.rows, t.rows)
            case Unreported(inner) => u == Store(Run(s, ops + [inner]).attempts, Run(s, ops + [inner]).recoveries, Run(s, ops + [inner]).rows, t.journal)
    decreases |ops|
  {
    hide ReserveTx, CompleteTx, FailTx, RecoverTx;
    RunThenApply(s, ops, op);
    if op.Unreported? { RunThenApply(s, ops, op.op); }
  }

  lemma {:induction false} RunThenApply(s: Store, ops: seq<Op>, op: Op)
    ensures Run(s, ops + [op]) == Apply(Run(s, ops), op)
    decreases |ops|
  {
    hide Apply;
    if ops == [] {
      assert [op][1..] == [];
    } else {
      assert (ops + [op])[1..] == ops[1..] + [op];
      RunThenApply(Apply(s, ops[0]), ops[1..], op);
    }
  }

  predicate Current(s: Store, a: Artifact, w: Wire) {
    a in s.attempts && s.attempts[a].request == w
  }

  predicate CurrentReceipt(s: Store, a: Artifact, w: Wire) {
    Current(s, a, w) && s.attempts[a].receipt.Some?
  }

  predicate RecoveredReceipt(s: Store, a: Artifact, w: Wire) {
    exists i | 0 <= i < |s.recoveries| ::
      s.recoveries[i].artifact == a && s.recoveries[i].request == w && s.recoveries[i].receipt.Some?
  }

  /** Where each request of each artifact stands, told by facts and by tables alike. */
  ghost predicate Ledger(s: Store, a: Artifact, w: Wire) {
    && (Current(s, a, w) ==> !Recovered(s, a, w))
    && TallyOf(s.rows, a, w, RecoveryAuthorized) == (if Recovered(s, a, w) then 1 else 0)
    && TallyOf(s.rows, a, w, Reserved) == (if Current(s, a, w) || Recovered(s, a, w) then 1 else 0)
    && TallyOf(s.rows, a, w, ReceiptReceived) == (if CurrentReceipt(s, a, w) || RecoveredReceipt(s, a, w) then 1 else 0)
    && TallyOf(s.rows, a, w, ResponseFailed) <= TallyOf(s.rows, a, w, Reserved)
  }

  ghost predicate Inv(s: Store) {
    && s.journal == s.rows
    && (forall a :: Tally(s.rows, a, Reserved) == Tally(s.rows, a, RecoveryAuthorized) + if a in s.attempts then 1 else 0)
    && TallyStage(s.rows, Reserved) == TallyStage(s.rows, RecoveryAuthorized) + |s.attempts|
    && |s.recoveries| == TallyStage(s.rows, RecoveryAuthorized)
    && (forall a, w :: Ledger(s, a, w))
  }

  lemma RecordCounts(s: Store, a: Artifact, w: Wire, stage: Stage, at: Option<nat>, elapsedMs: Option<nat>)
    requires RecordTx(s, a, w, stage, at, elapsedMs).Ok? && s.journal == s.rows
    ensures var t := RecordTx(s, a, w, stage, at, elapsedMs).value;
            && t.journal == t.rows
            && (forall a', st :: Tally(t.rows, a', st) == Tally(s.rows, a', st) + if a' == a && st == stage then 1 else 0)
            && (forall a', w', st :: TallyOf(t.rows, a', w', st)
                  == TallyOf(s.rows, a', w', st) + if a' == a && w' == w && st == stage then 1 else 0)
            && (forall st :: TallyStage(t.rows, st) == TallyStage(s.rows, st) + if st == stage then 1 else 0)
  {
    TallyAppend(s.rows, ScopedRow(s.rows, a, Validation(a, w, stage, at, elapsedMs)));
  }

  lemma ReserveKeepsInv(s: Store, a: Artifact, w: Wire)
    requires Inv(s)
    ensures Inv(Apply(s, Reserve(a, w)))
  {
    var t := Apply(s, Reserve(a, w));
    if t != s {
      RecordCounts(s.(attempts := s.attempts[a := Attempt(w, None)]), a, w, Reserved, w.issuedAt, None);
      assert t.recoveries == s.recoveries;
      forall a', w' ensures Ledger(t, a', w') { FactLedger(s, t, a, w, Reserved, a', w'); }
    }
  }

  lemma CompleteKeepsInv(s: Store, receipt: Receipt, w: Wire, elapsed: Option<nat>)
    requires Inv(s)
    ensures Inv(Apply(s, Complete(receipt, w, elapsed)))
  {
    var t := Apply(s, Complete(receipt, w, elapsed));
    var a := receipt.artifact;
    if CompleteTx(s, receipt, w, elapsed).Ok? {
      RecordCounts(s.(attempts := s.attempts[a := Attempt(w, Some(receipt))]), a, w, ReceiptReceived,
                   Some(receipt.completedAt), elapsed);
      assert t.recoveries == s.recoveries;
      forall a', w' ensures Ledger(t, a', w') { FactLedger(s, t, a, w, ReceiptReceived, a', w'); }
    }
  }

  lemma FailKeepsInv(s: Store, a: Artifact, w: Wire, elapsedMs: nat)
    requires Inv(s)
    ensures Inv(Apply(s, Fail(a, w, elapsedMs)))
  {
    var t := Apply(s, Fail(a, w, elapsedMs));
    if t != s {
      RecordCounts(s, a, w, ResponseFailed, None, Some(elapsedMs));
      TallyOfWitness(s.rows, a, w, ResponseFailed);
      forall a', w' ensures Ledger(t, a', w') { FactLedger(s, t, a, w, ResponseFailed, a', w'); }
    }
  }

  /** The three facts that leave the archive alone, each under the table change that earns it. */
  lemma FactLedger(s: Store, t: Store, a: Artifact, w: Wire, stage: Stage, a': Artifact, w': Wire)
    requires Ledger(s, a', w') && t.recoveries == s.recoveries
    requires forall st :: TallyOf(t.rows, a', w', st)
               == TallyOf(s.rows, a', w', st) + if a' == a && w' == w && st == stage then 1 else 0
    requires match stage
             case Reserved => a !in s.attempts && !Recovered(s, a, w) && t.attempts == s.attempts[a := Attempt(w, None)]
             case ReceiptReceived =>
               a in s.attempts && s.attempts[a] == Attempt(w, None)
               && exists r :: t.attempts == s.attempts[a := Attempt(w, Some(r))]
             case ResponseFailed => Current(s, a, w) && t.attempts == s.attempts && TallyOf(s.rows, a, w, ResponseFailed) == 0
             case RecoveryAuthorized => false
    ensures Ledger(t, a', w')
  {
    assert Recovered(t, a', w') == Recovered(s, a', w') && RecoveredReceipt(t, a', w') == RecoveredReceipt(s, a', w');
  }

  lemma ArchiveAppends(s: Store, t: Store, entry: Recovery)
    requires t.recoveries == s.recoveries + [entry]
    ensures forall a, w :: Recovered(t, a, w) <==> Recovered(s, a, w) || (a == entry.artifact && w == entry.request)
    ensures forall a, w :: RecoveredReceipt(t, a, w) <==>
              RecoveredReceipt(s, a, w) || (a == entry.artifact && w == entry.request && entry.receipt.Some?)
  {
    assert t.recoveries[|s.recoveries|] == entry;
    assert forall i | 0 <= i < |s.recoveries| :: t.recoveries[i] == s.recoveries[i];
  }

  /**
   A recovery takes effect if and only if the reason is accepted, the expected request is the current
   one and was not recovered before, its window is over, and its fact can be recorded.
   */
  lemma RecoversExactly(s: Store, a: Artifact, w: Wire, uid: nat, gid: nat, reason: string, now: nat)
    ensures Apply(s, Recover(a, w, uid, gid, reason, now)) != s <==>
              && ReasonAccepted(reason) && now <= MAX_I64
              && Current(s, a, w) && !Recovered(s, a, w) && w.expiresAt.Some? && w.expiresAt.value < now
              && |s.rows| == |s.journal| <= MAX_I64 && ScopeSettled(s.rows, a)
  {
    hide ReasonAccepted, ScopeSettled, Recovered, FirstPrepared, ScopedRow;
    var t := Apply(s, Recover(a, w, uid, gid, reason, now));
    assert t != s ==> |t.recoveries| == |s.recoveries| + 1;
  }

  /** Everything a successful recovery does, in the terms the invariant speaks of. */
  lemma RecoverEffect(s: Store, a: Artifact, w: Wire, uid: nat, gid: nat, reason: string, now: nat)
    requires s.journal == s.rows && Apply(s, Recover(a, w, uid, gid, reason, now)) != s
    ensures var t := Apply(s, Recover(a, w, uid, gid, reason, now));
            && Current(s, a, w) && t.attempts == s.attempts - {a} && t.journal == t.rows
            && t.recoveries == s.recoveries + [Recovery(a, w, s.attempts[a].receipt, uid, gid, reason, now)]
            && (forall a', w' :: Recovered(t, a', w') <==> Recovered(s, a', w') || (a' == a && w' == w))
            && (forall a', w' :: RecoveredReceipt(t, a', w') <==>
                  RecoveredReceipt(s, a', w') || (a' == a && w' == w && CurrentReceipt(s, a, w)))
            && (forall a', st :: Tally(t.rows, a', st)
                  == Tally(s.rows, a', st) + if a' == a && st == RecoveryAuthorized then 1 else 0)
            && (forall a', w', st :: TallyOf(t.rows, a', w', st)
                  == TallyOf(s.rows, a', w', st) + if a' == a && w' == w && st == RecoveryAuthorized then 1 else 0)
            && (forall st :: TallyStage(t.rows, st) == TallyStage(s.rows, st) + if st == RecoveryAuthorized then 1 else 0)
  {
    var t := Apply(s, Recover(a, w, uid, gid, reason, now));
    var entry := Recovery(a, w, s.attempts[a].receipt, uid, gid, reason, now);
    var archived := s.(recoveries := s.recoveries + [entry], attempts := s.attempts - {a});
    RecordCounts(archived, a, w, RecoveryAuthorized, Some(now), None);
    ArchiveAppends(s, t, entry);
  }

  lemma RecoverKeepsInv(s: Store, op: Op)
    requires Inv(s) && op.Recover?
    ensures Inv(Apply(s, op))
  {
    hide Apply, Ledger, Current, Recovered, RecoveredReceipt, Tally, TallyOf, TallyStage;
    var t := Apply(s, op);
    if t != s {
      var a, w := op.artifact, op.request;
      RecoverEffect(s, a, w, op.uid, op.gid, op.reason, op.now);
      forall a', w' ensures Ledger(t, a', w') { RecoveredLedger(s, t, a, w, a', w'); }
      assert s.attempts.Keys == t.attempts.Keys + {a};
      assert |s.attempts| == |s.attempts.Keys| && |t.attempts| == |t.attempts.Keys|;
    }
  }

  lemma RecoveredLedger(s: Store, t: Store, a: Artifact, w: Wire, a': Artifact, w': Wire)
    requires Ledger(s, a', w') && Current(s, a, w) && t.attempts == s.attempts - {a}
    requires Recovered(t, a', w') <==> Recovered(s, a', w') || (a' == a && w' == w)
    requires RecoveredReceipt(t, a', w') <==> RecoveredReceipt(s, a', w') || (a' == a && w' == w && CurrentReceipt(s, a, w))
    requires forall st :: TallyOf(t.rows, a', w', st)
               == TallyOf(s.rows, a', w', st) + if a' == a && w' == w && st == RecoveryAuthorized then 1 else 0
    ensures Ledger(t, a', w')
  {
  }

  /** An operation whose commit is reported, from a store whose memory is in step. */
  lemma StepKeepsInv(s: Store, op: Op)
    requires Inv(s) && !op.Unreported?
    ensures Inv(Apply(s, op))
  {
    match op
    case Reserve(a, w) => ReserveKeepsInv(s, a, w);
    case Complete(receipt, w, elapsed) => CompleteKeepsInv(s, receipt, w, elapsed);
    case Fail(a, w, elapsed) => FailKeepsInv(s, a, w, elapsed);
    case Recover(_, _, _, _, _, _) => RecoverKeepsInv(s, op);
    case Append(row) =>
      TallyAppend(s.rows, row);
      forall a, w ensures Ledger(Apply(s, op), a, w) { assert Ledger(s, a, w); }
    case Reopen =>
  }

  /** The tables are consistent, whatever part of the journal memory has missed. */
  ghost predicate DurableInv(s: Store) {
    Inv(s.(journal := s.rows)) && |s.journal| <= |s.rows| && s.journal == s.rows[..|s.journal|]
  }

  /** Rows are only ever appended, and never while memory is behind. */
  lemma {:induction false} RowsAppend(s: Store, op: Op)
    requires |s.journal| <= |s.rows|
    ensures |s.rows| <= |Apply(s, op).rows| && Apply(s, op).rows[..|s.rows|] == s.rows
    ensures |s.journal| < |s.rows| ==> Apply(s, op) == s || Apply(s, op) == s.(journal := s.rows)
    decreases op
  {
    hide ScopeSettled, Recovered, FailureRecorded, ReasonAccepted, ScopedRow;
    if op.Unreported? {
      RowsAppend(s, op.op);
    }
  }

  lemma {:induction false} StepKeepsDurable(s: Store, op: Op)
    requires DurableInv(s)
    ensures DurableInv(Apply(s, op))
    decreases op
  {
    hide Inv;
    RowsAppend(s, op);
    if |s.journal| == |s.rows| {
      assert s.journal == s.rows && s.(journal := s.rows) == s;
      if op.Unreported? {
        hide RecordTx;
        StepKeepsDurable(s, op.op);
        assert Apply(s, op).(journal := Apply(s, op).rows) == Apply(s, op.op).(journal := Apply(s, op.op).rows);
      } else {
        StepKeepsInv(s, op);
        InStep(Apply(s, op));
      }
    } else {
      hide Apply;
      assert s.rows[..|s.rows|] == s.rows;
    }
  }

  lemma InStep(s: Store)
    requires Inv(s)
    ensures DurableInv(s)
  {
    assert s.rows[..|s.rows|] == s.rows && s.(journal := s.rows) == s;
  }

  lemma {:induction false} DurableKept(s: Store, ops: seq<Op>)
    requires DurableInv(s)
    ensures DurableInv(Run(s, ops))
    decreases |ops|
  {
    hide DurableInv, Apply;
    if ops != [] {
      StepKeepsDurable(s, ops[0]);
      DurableKept(Apply(s, ops[0]), ops[1..]);
    }
  }

  /**
   Over every history of a new database, unreported commits and reopenings included: facts, attempts
   and recoveries agree, and memory is a prefix of the journal.
   */
  lemma RunKeepsInv(ops: seq<Op>)
    ensures DurableInv(Run(EMPTY, ops))
  {
    InStep(EMPTY);
    DurableKept(EMPTY, ops);
  }

  /**
   Conservation over every history: an artifact's reservations exceed its recoveries by one exactly
   while it has an attempt row, and so do their totals by the number of open attempts.
   */
  lemma ReservationsConserved(ops: seq<Op>, a: Artifact)
    ensures var s := Run(EMPTY, ops);
            && Tally(s.rows, a, Reserved) - Tally(s.rows, a, RecoveryAuthorized) == (if a in s.attempts then 1 else 0)
            && TallyStage(s.rows, Reserved) - TallyStage(s.rows, RecoveryAuthorized) == |s.attempts|
  {
    RunKeepsInv(ops);
  }

  /** Each request is reserved, answered, failed and recovered at most once, and only after it was reserved. */
  lemma EachRequestOnce(ops: seq<Op>, a: Artifact, w: Wire, stage: Stage)
    ensures var rows := Run(EMPTY, ops).rows;
            TallyOf(rows, a, w, stage) <= TallyOf(rows, a, w, Reserved) <= 1
  {
    RunKeepsInv(ops);
    var s := Run(EMPTY, ops);
    assert Ledger(s.(journal := s.rows), a, w);
  }

  lemma {:induction false} RecoveriesStay(s: Store, op: Op)
    ensures |s.recoveries| <= |Apply(s, op).recoveries| && Apply(s, op).recoveries[..|s.recoveries|] == s.recoveries
    decreases op
  {
    hide ScopeSettled, Recovered, FailureRecorded, ReasonAccepted, ScopedRow;
    if op.Unreported? {
      RecoveriesStay(s, op.op);
    }
  }

  lemma {:induction false} RecoveredForever(s: Store, ops: seq<Op>, a: Artifact, w: Wire)
    requires Recovered(s, a, w)
    ensures Recovered(Run(s, ops), a, w)
    decreases |ops|
  {
    hide Apply;
    if ops != [] {
      var i :| 0 <= i < |s.recoveries| && s.recoveries[i].artifact == a && s.recoveries[i].request == w;
      var t := Apply(s, ops[0]);
      RecoveriesStay(s, ops[0]);
      assert t.recoveries[i] == t.recoveries[..|s.recoveries|][i] == s.recoveries[i];
      RecoveredForever(t, ops[1..], a, w);
    }
  }

  /** A receipt or failure of a recovered request changes nothing, whatever was reserved since. */
  lemma LateResponseRefused(before: seq<Op>, after: seq<Op>, receipt: Receipt, w: Wire, elapsed: nat)
    requires Recovered(Run(EMPTY, before), receipt.artifact, w)
    ensures var s := Run(Run(EMPTY, before), after);
            && CompleteTx(s, receipt, w, Some(elapsed)) == Err(InvalidDeployment)
            && FailTx(s, receipt.artifact, w, elapsed) == Err(InvalidDeployment)
            && (ReserveTx(s, receipt.artifact, w).Ok? ==> ReserveTx(s, receipt.artifact, w).value == (s, false))
  {
    var s := Run(Run(EMPTY, before), after);
    RunKeepsInv(before);
    DurableKept(Run(EMPTY, before), after);
    RecoveredForever(Run(EMPTY, before), after, receipt.artifact, w);
    RecoveredNotCurrent(s, receipt.artifact, w);
  }

  lemma RecoveredNotCurrent(s: Store, a: Artifact, w: Wire)
    requires DurableInv(s) && Recovered(s, a, w)
    ensures !Current(s, a, w)
  {
    var t := s.(journal := s.rows);
    assert Recovered(t, a, w) && Ledger(t, a, w);
  }

  // ---- What each operation does and answers, exactly ----

  /** All preparations of the artifact carry one scope, with both identities or neither. */
  ghost predicate OneScope(rows: seq<Row>, a: Artifact) {
    forall i, j | 0 <= i < |rows| && 0 <= j < |rows| && rows[i].event == Prepared(a) && rows[j].event == Prepared(a) ::
      rows[i].incident == rows[j].incident && rows[i].run == rows[j].run && (rows[i].incident.Some? <==> rows[i].run.Some?)
  }

  /** The row carries the scope of the artifact's preparations, or none if there are none. */
  ghost predicate CarriesScope(rows: seq<Row>, a: Artifact, row: Row) {
    && (forall i | 0 <= i < |rows| && rows[i].event == Prepared(a) :: row.incident == rows[i].incident && row.run == rows[i].run)
    && ((forall i | 0 <= i < |rows| :: rows[i].event != Prepared(a)) ==> row.incident.None? && row.run.None?)
  }

  lemma ScopeExactly(rows: seq<Row>, a: Artifact, event: Event)
    ensures ScopeSettled(rows, a) <==> OneScope(rows, a)
    ensures OneScope(rows, a) ==> CarriesScope(rows, a, ScopedRow(rows, a, event)) && ScopedRow(rows, a, event).event == event
  {
    hide FirstPrepared;
    var i := FirstPrepared(rows, a);
    assert i < |rows| ==> rows[i].event == Prepared(a);
  }

  /** A fact about the artifact can be recorded: memory is in step and its scope is unambiguous. */
  ghost predicate Recordable(s: Store, a: Artifact) {
    |s.rows| == |s.journal| <= MAX_I64 && OneScope(s.rows, a)
  }

  /** Exactly one row was added, to the table and to memory: this fact, under the artifact's scope. */
  ghost predicate Records(s: Store, t: Store, a: Artifact, event: Event) {
    exists row :: t.rows == s.rows + [row] && t.journal == s.journal + [row] && row.event == event && CarriesScope(s.rows, a, row)
  }

  /** The error of a fact that cannot be recorded. */
  function RecordError(s: Store): StoreError {
    if |s.rows| != |s.journal| || |s.journal| > MAX_I64 then NonContiguousSequence else InvalidDeployment
  }

  lemma RecordExactly(s: Store, a: Artifact, w: Wire, stage: Stage, at: Option<nat>, elapsedMs: Option<nat>)
    ensures var r := RecordTx(s, a, w, stage, at, elapsedMs);
            && (r.Ok? <==> Recordable(s, a)) && (r.Err? ==> r.error == RecordError(s))
            && (r.Ok? ==> && r.value.attempts == s.attempts && r.value.recoveries == s.recoveries
                          && Records(s, r.value, a, Validation(a, w, stage, at, elapsedMs)))
  {
    hide FirstPrepared, ScopeSettled, ScopedRow, OneScope, CarriesScope;
    ScopeExactly(s.rows, a, Validation(a, w, stage, at, elapsedMs));
  }

  ghost predicate OpenAttempt(s: Store, a: Artifact, w: Wire) {
    a in s.attempts && s.attempts[a].request == w && s.attempts[a].receipt.None?
  }

  lemma FailureTallied(rows: seq<Row>, a: Artifact, w: Wire)
    ensures FailureRecorded(rows, a, w) <==> TallyOf(rows, a, w, ResponseFailed) > 0
  {
    TallyOfWitness(rows, a, w, ResponseFailed);
  }

  /**
   A failed response is recorded if and only if its time fits, its request is the open attempt, no
   failure of it is recorded, and the fact can be; then exactly that fact is added. A repeat is answered
   alike and changes nothing, and anything else is refused.
   */
  lemma FailsExactly(s: Store, a: Artifact, w: Wire, elapsedMs: nat)
    ensures var r := FailTx(s, a, w, elapsedMs);
            var first := TallyOf(s.rows, a, w, ResponseFailed) == 0;
            && (r.Ok? <==> elapsedMs <= MAX_U64 && OpenAttempt(s, a, w) && (first ==> Recordable(s, a)))
            && (r.Err? ==> r.error == if elapsedMs <= MAX_U64 && OpenAttempt(s, a, w) then RecordError(s) else InvalidDeployment)
            && (r.Ok? && !first ==> r.value == s)
            && (r.Ok? && first ==>
                  && r.value.attempts == s.attempts && r.value.recoveries == s.recoveries
                  && Records(s, r.value, a, Validation(a, w, ResponseFailed, None, Some(elapsedMs)))
                  && TallyOf(r.value.rows, a, w, ResponseFailed) == 1)
  {
    hide RecordTx, Records, Recordable, RecordError, FailureRecorded, TallyOf;
    FailureTallied(s.rows, a, w);
    RecordExactly(s, a, w, ResponseFailed, None, Some(elapsedMs));
    RecordedTallies(s, a, w, ResponseFailed, None, Some(elapsedMs));
  }

  lemma RecordedTallies(s: Store, a: Artifact, w: Wire, stage: Stage, at: Option<nat>, elapsedMs: Option<nat>)
    ensures var r := RecordTx(s, a, w, stage, at, elapsedMs);
            r.Ok? ==> TallyOf(r.value.rows, a, w, stage) == TallyOf(s.rows, a, w, stage) + 1
  {
    hide FirstPrepared, ScopeSettled, ScopedRow, TallyOf;
    var row := ScopedRow(s.rows, a, Validation(a, w, stage, at, elapsedMs));
    ScopedEvent(s.rows, a, Validation(a, w, stage, at, elapsedMs));
    OneTally(s.rows, row, a, w, stage);
  }

  lemma ScopedEvent(rows: seq<Row>, a: Artifact, event: Event)
    ensures ScopedRow(rows, a, event).event == event
  {
    hide FirstPrepared;
  }

  lemma OneTally(rows: seq<Row>, row: Row, a: Artifact, w: Wire, stage: Stage)
    requires IsFact(row, a, w, stage)
    ensures TallyOf(rows + [row], a, w, stage) == TallyOf(rows, a, w, stage) + 1
  {
    assert (rows + [row])[..|rows|] == rows;
  }

  /**
   A request is reserved if and only if it is small enough, no attempt of its artifact is open, it was
   never recovered, and the fact can be recorded; then it is the open attempt. With an attempt open or
   the request recovered the answer is false and nothing changes.
   */
  lemma ReservesExactly(s: Store, a: Artifact, w: Wire)
    ensures var r := ReserveTx(s, a, w);
            var free := a !in s.attempts && forall i | 0 <= i < |s.recoveries| :: s.recoveries[i].artifact != a || s.recoveries[i].request != w;
            && (r.Ok? <==> w.size <= MAX_REQUEST_BYTES && (free ==> Recordable(s, a)))
            && (r.Err? ==> r.error == if w.size <= MAX_REQUEST_BYTES then RecordError(s) else InvalidDeployment)
            && (r.Ok? ==> (r.value.1 <==> free))
            && (r.Ok? && !free ==> r.value.0 == s)
            && (r.Ok? && free ==>
                  && r.value.0.attempts == s.attempts[a := Attempt(w, None)] && r.value.0.recoveries == s.recoveries
                  && Records(s, r.value.0, a, Validation(a, w, Reserved, w.issuedAt, None)))
  {
    hide RecordTx, RecordError;
    var u := s.(attempts := s.attempts[a := Attempt(w, None)]);
    RecordExactly(u, a, w, Reserved, w.issuedAt, None);
    SameJournal(s, u, a);
  }

  lemma SameJournal(s: Store, u: Store, a: Artifact)
    requires s.rows == u.rows && s.journal == u.journal
    ensures Recordable(s, a) <==> Recordable(u, a)
    ensures RecordError(s) == RecordError(u)
    ensures forall t, event :: Records(s, t, a, event) <==> Records(u, t, a, event)
  {
  }

  /** A receipt is stored if and only if its time fits, its request is the open attempt, and the fact can be recorded. */
  lemma CompletesExactly(s: Store, receipt: Receipt, w: Wire, elapsedMs: Option<nat>)
    ensures var (r, a) := (CompleteTx(s, receipt, w, elapsedMs), receipt.artifact);
            var admitted := (elapsedMs.Some? ==> elapsedMs.value <= MAX_U64) && OpenAttempt(s, a, w);
            && (r.Ok? <==> admitted && Recordable(s, a))
            && (r.Err? ==> r.error == if admitted then RecordError(s) else InvalidDeployment)
            && (r.Ok? ==>
                  && r.value.attempts == s.attempts[a := Attempt(w, Some(receipt))] && r.value.recoveries == s.recoveries
                  && Records(s, r.value, a, Validation(a, w, ReceiptReceived, Some(receipt.completedAt), elapsedMs)))
  {
    hide RecordTx, RecordError;
    var a := receipt.artifact;
    var u := s.(attempts := s.attempts[a := Attempt(w, Some(receipt))]);
    RecordExactly(u, a, w, ReceiptReceived, Some(receipt.completedAt), elapsedMs);
    SameJournal(s, u, a);
  }

  /** A reason is accepted if and only if it shows something, fits 512 bytes and holds no control character. */
  lemma ReasonExactly(reason: string)
    ensures ReasonAccepted(reason) <==>
              && (exists i | 0 <= i < |reason| :: !Text.IsWhitespace(reason[i]))
              && Text.Utf8Length(reason) <= 512 && forall i | 0 <= i < |reason| :: !Text.IsControl(reason[i])
  {
  }

  /** What a recovery answers: whether it took effect, or why it was refused. */
  lemma RecoverAnswers(s: Store, a: Artifact, w: Wire, uid: nat, gid: nat, reason: string, now: nat)
    ensures var r := RecoverTx(s, a, w, uid, gid, reason, now);
            var expired := Current(s, a, w) && w.expiresAt.Some? && w.expiresAt.value < now;
            && (!ReasonAccepted(reason) || now > MAX_I64 ==> r == Err(InvalidDeployment))
            && (ReasonAccepted(reason) && now <= MAX_I64 && !expired ==> r == Ok((s, false)))
            && (ReasonAccepted(reason) && now <= MAX_I64 && expired && Recovered(s, a, w) ==> r == Err(Sqlite))
            && (ReasonAccepted(reason) && now <= MAX_I64 && expired && !Recovered(s, a, w) ==>
                  if Recordable(s, a) then
                    && r.Ok? && r.value.1 && r.value.0.attempts == s.attempts - {a}
                    && r.value.0.recoveries == s.recoveries + [Recovery(a, w, s.attempts[a].receipt, uid, gid, reason, now)]
                    && Records(s, r.value.0, a, Validation(a, w, RecoveryAuthorized, Some(now), None))
                  else r == Err(RecordError(s)))
  {
    hide RecordTx, RecordError, ReasonAccepted, Recovered;
    if a in s.attempts {
      var u := s.(recoveries := s.recoveries + [Recovery(a, w, s.attempts[a].receipt, uid, gid, reason, now)], attempts := s.attempts - {a});
      RecordExactly(u, a, w, RecoveryAuthorized, Some(now), None);
      SameJournal(s, u, a);
    }
  }

  /** Counters a replay of the journal derives (src/reasoning/journal.rs). */
  datatype Projection = Projection(reservations: nat, receipts: nat, failedResponses: nat, recoveries: nat)

  /** The tables and the in-memory journal one responder process updates. */
  class AttemptStore {
    var attempts: map<Artifact, Attempt>
    var recoveries: seq<Recovery>
    var rows: seq<Row>
    var journal: seq<Row>

    ghost function Contents(): Store
      reads this
    {
      Store(attempts, recoveries, rows, journal)
    }

    /** Opening replays the event table into memory. */
    constructor (attempts: map<Artifact, Attempt>, recoveries: seq<Recovery>, rows: seq<Row>)
      ensures Contents() == Store(attempts, recoveries, rows, rows)
    {
      this.attempts, this.recoveries, this.rows := attempts, recoveries, rows;
      new;
      this.journal := [];
      for i := 0 to |rows|
        modifies this`journal
        invariant journal == rows[..i]
        invariant this.attempts == attempts && this.recoveries == recoveries && this.rows == rows
      {
        this.journal := this.journal + [rows[i]];
      }
    }

    method Reserve(a: Artifact, w: Wire) returns (r: Result<bool, StoreError>)
      modifies this
      ensures match ReserveTx(old(Contents()), a, w)
              case Ok(out) => r == Ok(out.1) && Contents() == out.0
              case Err(e) => r == Err(e) && Contents() == old(Contents())
    {
      if w.size > MAX_REQUEST_BYTES { return Err(InvalidDeployment); }
      if a in attempts || Recovered(Store(attempts, recoveries, rows, journal), a, w) { return Ok(false); }
      var row := CheckTransition(a, Validation(a, w, Reserved, w.issuedAt, None));
      if row.Err? { return Err(row.error); }
      attempts := attempts[a := Attempt(w, None)];
      Commit(row.value);
      return Ok(true);
    }

    method Complete(receipt: Receipt, w: Wire, elapsedMs: Option<nat>) returns (r: Result<(), StoreError>)
      modifies this
      ensures match CompleteTx(old(Contents()), receipt, w, elapsedMs)
              case Ok(t) => r == Ok(()) && Contents() == t
              case Err(e) => r == Err(e) && Contents() == old(Contents())
    {
      var a := receipt.artifact;
      if elapsedMs.Some? && elapsedMs.value > MAX_U64 { return Err(InvalidDeployment); }
      if a !in attempts || attempts[a].request != w || attempts[a].receipt.Some? { return Err(InvalidDeployment); }
      var row := CheckTransition(a, Validation(a, w, ReceiptReceived, Some(receipt.completedAt), elapsedMs));
      if row.Err? { return Err(row.error); }
      attempts := attempts[a := Attempt(w, Some(receipt))];
      Commit(row.value);
      return Ok(());
    }

    method RecordFailure(a: Artifact, w: Wire, elapsedMs: nat) returns (r: Result<(), StoreError>)
      modifies this
      ensures match FailTx(old(Contents()), a, w, elapsedMs)
              case Ok(t) => r == Ok(()) && Contents() == t
              case Err(e) => r == Err(e) && Contents() == old(Contents())
    {
      if elapsedMs > MAX_U64 { return Err(InvalidDeployment); }
      if a !in attempts || attempts[a].request != w || attempts[a].receipt.Some? { return Err(InvalidDeployment); }
      if FailureRecorded(rows, a, w) { return Ok(()); }
      var row := CheckTransition(a, Validation(a, w, ResponseFailed, None, Some(elapsedMs)));
      if row.Err? { return Err(row.error); }
      Commit(row.value);
      return Ok(());
    }

    method Recover(a: Artifact, expected: Wire, uid: nat, gid: nat, reason: string, now: nat) returns (r: Result<bool, StoreError>)
      modifies this
      ensures match RecoverTx(old(Contents()), a, expected, uid, gid, reason, now)
              case Ok(out) => r == Ok(out.1) && Contents() == out.0
              case Err(e) => r == Err(e) && Contents() == old(Contents())
    {
      if !ReasonAccepted(reason) { return Err(InvalidDeployment); }
      if now > MAX_I64 { return Err(InvalidDeployment); }
      if a !in attempts { return Ok(false); }
      var previous := attempts[a];
      if previous.request != expected { return Ok(false); }
      if previous.request.expiresAt.None? || now <= previous.request.expiresAt.value { return Ok(false); }
      if Recovered(Store(attempts, recoveries, rows, journal), a, expected) { return Err(Sqlite); }
      var row := CheckTransition(a, Validation(a, expected, RecoveryAuthorized, Some(now), None));
      if row.Err? { return Err(row.error); }
      recoveries := recoveries + [Recovery(a, expected, previous.receipt, uid, gid, reason, now)];
      attempts := attempts - {a};
      Commit(row.value);
      return Ok(true);
    }

    /** `record_transition` up to its insert: the sequence must be contiguous and the scope settled. */
    method CheckTransition(a: Artifact, event: Event) returns (row: Result<Row, StoreError>)
      ensures row == if |rows| != |journal| || |journal| > MAX_I64 then Err(NonContiguousSequence)
                     else if !ScopeSettled(rows, a) then Err(InvalidDeployment)
                     else Ok(ScopedRow(rows, a, event))
    {
      if |journal| > MAX_I64 || |rows| != |journal| { return Err(NonContiguousSequence); }
      if !ScopeSettled(rows, a) { return Err(InvalidDeployment); }
      return Ok(ScopedRow(rows, a, event));
    }

    method Commit(row: Row)
      modifies this`rows, this`journal
      ensures rows == old(rows) + [row] && journal == old(journal) + [row]
    {
      rows := rows + [row];
      journal := journal + [row];
    }

    /** Replays the journal's facts into the operator's counters. */
    method Project() returns (p: Projection)
      ensures p == Projection(TallyStage(journal, Reserved), TallyStage(journal, ReceiptReceived),
                              TallyStage(journal, ResponseFailed), TallyStage(journal, RecoveryAuthorized))
    {
      p := Projection(0, 0, 0, 0);
      for i := 0 to |journal|
        invariant p == Projection(TallyStage(journal[..i], Reserved), TallyStage(journal[..i], ReceiptReceived),
                                  TallyStage(journal[..i], ResponseFailed), TallyStage(journal[..i], RecoveryAuthorized))
      {
        assert journal[..i + 1] == journal[..i] + [journal[i]];
        TallyAppend(journal[..i], journal[i]);
        match journal[i].event
        case Validation(_, _, stage, _, _) =>
          match stage {
            case Reserved => p := p.(reservations := p.reservations + 1);
            case ReceiptReceived => p := p.(receipts := p.receipts + 1);
            case ResponseFailed => p := p.(failedResponses := p.failedResponses + 1);
            case RecoveryAuthorized => p := p.(recoveries := p.recoveries + 1);
          }
        case _ =>
      }
      assert journal[..|journal|] == journal;
    }
  }
}
