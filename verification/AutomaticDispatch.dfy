/**
 Automatic repair dispatch (src/application/repair_dispatch.rs) over the validation store. One run
 holds the journal exclusively from the attempt check to the reservation; it may be cancelled or
 crash after any effect. Between runs operators recover attempts and stage repairs by hand. A commit
 may take effect although it was reported as failed; memory then misses it until the next start.
 */
module AutomaticDispatch {
  import opened Outcomes
  import MV = ManualValidation

  type Artifact = MV.Artifact

  datatype Status = Firing | Resolved

  datatype Signal = Signal(incident: string, status: Status, alertName: string, service: Option<string>)

  datatype Phase =
    | Resting
    | Admitted(incident: string, run: string)
    | Ready(artifact: Artifact)
    | Dispatched(artifact: Artifact, request: MV.Wire)

  /** `automatic` marks the journal rows in which a dispatch run reserved. */
  datatype World = World(store: MV.Store, candidates: set<Artifact>, phase: Phase, automatic: set<nat>)

  datatype Step =
    | Start(signal: Signal, enrolled: string, contextIncident: string, run: string)
    | ImportFact(row: MV.Row)
    | Prepare(artifact: Artifact)
    | ReserveAutomatically(request: MV.Wire)
    | Answer(receipt: Option<MV.Receipt>, elapsed: nat)
    | Cancel | Crash
    | Recover(artifact: Artifact, request: MV.Wire, uid: nat, gid: nat, reason: string, now: nat)
    | StageByHand(artifact: Artifact)
    | ReserveByHand(artifact: Artifact, request: MV.Wire)
    | Unreported(step: Step)

  const INITIAL: World := World(MV.EMPTY, {}, Resting, {})

  /** Only the enrolled firing pilot alert selects a repair. */
  predicate Selected(signal: Signal, enrolled: string) {
    signal.status.Firing? && signal.alertName == enrolled && signal.service == Some("it-tools")
  }

  predicate AlreadyAttempted(journal: seq<MV.Row>, incident: string) {
    exists i | 0 <= i < |journal| ::
      journal[i].event.Validation? && journal[i].run.Some? && journal[i].incident == Some(incident)
  }

  predicate PreparedIn(rows: seq<MV.Row>, a: Artifact) {
    exists i | 0 <= i < |rows| :: rows[i] == PreparedRow(a)
  }

  function PreparedRow(a: Artifact): MV.Row {
    MV.Row(Some(a.incident), Some(a.run), MV.Prepared(a))
  }

  /** `prepare_manual_candidate`: a stored candidate must already have its fact, a new one gets it. */
  function Stage(w: World, a: Artifact): Option<World> {
    if a in w.candidates then
      if PreparedIn(w.store.journal, a) then Some(w) else None
    else if |w.store.rows| != |w.store.journal| then None
    else Some(w.(store := MV.Apply(w.store, MV.Append(PreparedRow(a))), candidates := w.candidates + {a}))
  }

  function Apply(w: World, s: Step): Option<World>
    decreases s
  {
    match s
    case Start(signal, enrolled, contextIncident, run) =>
      if w.phase.Resting? && Selected(signal, enrolled) && contextIncident == signal.incident && run != ""
         && !AlreadyAttempted(w.store.journal, contextIncident)
      then Some(w.(phase := Admitted(contextIncident, run))) else None
    case ImportFact(row) =>
      if row.event.Other? then Some(w.(store := MV.Apply(w.store, MV.Append(row)))) else None
    case Prepare(a) =>
      if w.phase.Admitted? && a.incident == w.phase.incident && a.run == w.phase.run then
        match Stage(w, a) {
          case None => None
          case Some(v) => Some(v.(phase := Ready(a)))
        }
      else None
    case ReserveAutomatically(request) =>
      if !w.phase.Ready? || w.phase.artifact in w.store.attempts then None else
      (match MV.ReserveTx(w.store, w.phase.artifact, request)
       case Err(_) => Some(w.(phase := Resting))
       case Ok(out) =>
         if out.1 then Some(w.(store := out.0, phase := Dispatched(w.phase.artifact, request),
                               automatic := w.automatic + {|w.store.rows|}))
         else Some(w.(phase := Resting)))
    case Answer(receipt, elapsed) =>
      if !w.phase.Dispatched? then None else
      Some(w.(phase := Resting,
              store := MV.Apply(w.store, match receipt
                case Some(r) => MV.Complete(r, w.phase.request, Some(elapsed))
                case None => MV.Fail(w.phase.artifact, w.phase.request, elapsed))))
    case Cancel => Some(w.(phase := Resting))
    case Crash => Some(w.(phase := Resting, store := MV.Apply(w.store, MV.Reopen)))
    case Recover(a, request, uid, gid, reason, now) =>
      if w.phase.Resting? then Some(w.(store := MV.Apply(w.store, MV.Recover(a, request, uid, gid, reason, now)))) else None
    case StageByHand(a) => if w.phase.Resting? then Stage(w, a) else None
    case ReserveByHand(a, request) =>
      if w.phase.Resting? then Some(w.(store := MV.Apply(w.store, MV.Reserve(a, request)))) else None
    case Unreported(inner) =>
      (match Apply(w, inner)
       case None => None
       case Some(v) => Some(v.(store := v.store.(journal := w.store.journal), phase := Resting)))
  }

  function Run(w: World, steps: seq<Step>): Option<World>
    decreases |steps|
  {
    if steps == [] then Some(w)
    else match Apply(w, steps[0])
      case None => None
      case Some(v) => Run(v, steps[1..])
  }

  // ---- Invariant ----

  /** A preparation fact carries the scope its artifact names. */
  predicate ScopesNamed(rows: seq<MV.Row>) {
    forall i | 0 <= i < |rows| && rows[i].event.Prepared? :: rows[i] == PreparedRow(rows[i].event.artifact)
  }

  predicate AutomaticFact(rows: seq<MV.Row>, i: nat) {
    i < |rows| && rows[i].event.Validation? && rows[i].event.stage == MV.Reserved
    && rows[i].incident == Some(rows[i].event.artifact.incident) && rows[i].run.Some?
  }

  ghost predicate OnePerIncident(rows: seq<MV.Row>, automatic: set<nat>) {
    && (forall i | i in automatic :: AutomaticFact(rows, i))
    && (forall i, j | i in automatic && j in automatic && rows[i].incident == rows[j].incident :: i == j)
  }

  /** While memory is in step, an admitted run's incident has no attempt yet. */
  ghost predicate PhaseAgrees(w: World) {
    w.store.journal == w.store.rows ==>
      match w.phase
      case Resting => true
      case Admitted(incident, run) => !AlreadyAttempted(w.store.rows, incident)
      case Ready(a) => !AlreadyAttempted(w.store.rows, a.incident) && PreparedIn(w.store.rows, a)
      case Dispatched(a, request) => true
  }

  ghost predicate Behind(s: MV.Store) {
    |s.journal| <= |s.rows| && s.journal == s.rows[..|s.journal|]
  }

  ghost predicate Inv(w: World) {
    Behind(w.store) && ScopesNamed(w.store.rows) && OnePerIncident(w.store.rows, w.automatic) && PhaseAgrees(w)
  }

  /** Memory that is as long as the table equals it. */
  lemma FullMemory(s: MV.Store)
    requires Behind(s)
    ensures s.journal == s.rows <==> |s.journal| == |s.rows|
  {
    assert s.rows[..|s.rows|] == s.rows;
  }

  lemma ScopedRowNamed(rows: seq<MV.Row>, a: Artifact, event: MV.Event)
    requires ScopesNamed(rows)
    ensures MV.ScopedRow(rows, a, event).event == event
    ensures PreparedIn(rows, a) ==> MV.ScopedRow(rows, a, event) == MV.Row(Some(a.incident), Some(a.run), event)
  {
  }

  /** Appending one row that is neither a preparation nor, while a run is admitted, an attempt of its incident. */
  lemma AppendKeepsInv(w: World, v: World, row: MV.Row)
    requires Inv(w) && w.store.journal == w.store.rows && v.store.rows == w.store.rows + [row] && v.store.journal == v.store.rows
    requires row.event.Prepared? ==> row == PreparedRow(row.event.artifact)
    requires v.automatic == w.automatic
    requires v.phase == w.phase || v.phase.Resting? || v.phase.Dispatched?
    requires row.event.Validation? ==> v.phase.Resting? || v.phase.Dispatched?
    ensures Inv(v)
  {
    assert forall i | 0 <= i < |w.store.rows| :: v.store.rows[i] == w.store.rows[i];
    assert forall i | i in w.automatic :: AutomaticFact(w.store.rows, i);
    if v.phase.Ready? {
      var i :| 0 <= i < |w.store.rows| && w.store.rows[i] == PreparedRow(w.phase.artifact);
      assert v.store.rows[i] == PreparedRow(w.phase.artifact);
    }
  }

  lemma StageKeepsInv(w: World, a: Artifact)
    requires Inv(w) && Stage(w, a).Some?
    ensures Inv(Stage(w, a).value) && (w.store.journal == w.store.rows ==> PreparedIn(Stage(w, a).value.store.rows, a))
  {
    var v := Stage(w, a).value;
    FullMemory(w.store);
    if v != w {
      AppendKeepsInv(w, v, PreparedRow(a));
      assert v.store.rows[|w.store.rows|] == PreparedRow(a);
    }
  }

  ghost predicate AppendedBy(op: MV.Op, row: MV.Row) {
    if op.Append? then row == op.row && !row.event.Validation? else row.event.Validation?
  }

  /**
   An operation of the store appends at most one fact, of the kind it names, and behind memory that
   misses a fact nothing at all.
   */
  lemma OperationAppends(s: MV.Store, op: MV.Op)
    requires Behind(s) && (op.Reserve? || op.Complete? || op.Fail? || op.Recover? || op.Append?)
    ensures var t := MV.Apply(s, op);
            || t == s
            || (s.journal == s.rows && t.journal == t.rows
                && (exists row :: t.rows == s.rows + [row] && AppendedBy(op, row)))
  {
    FullMemory(s);
    hide MV.ScopeSettled, MV.Recovered, MV.FailureRecorded, MV.ReasonAccepted, MV.FirstPrepared;
    var t := MV.Apply(s, op);
    if t != s {
      var row := t.rows[|s.rows|];
      assert t.rows == s.rows + [row];
    }
  }

  lemma OperationKeepsInv(w: World, v: World, op: MV.Op)
    requires Inv(w) && (op.Reserve? || op.Complete? || op.Fail? || op.Recover?)
    requires v == w.(store := MV.Apply(w.store, op), phase := Resting)
    ensures Inv(v)
  {
    hide MV.Apply;
    OperationAppends(w.store, op);
    if v.store != w.store {
      var row :| v.store.rows == w.store.rows + [row] && row.event.Validation?;
      AppendKeepsInv(w, v, row);
    }
  }

  lemma ImportKeepsInv(w: World, row: MV.Row)
    requires Inv(w) && row.event.Other?
    ensures Inv(w.(store := MV.Apply(w.store, MV.Append(row))))
  {
    var v := w.(store := MV.Apply(w.store, MV.Append(row)));
    OperationAppends(w.store, MV.Append(row));
    if v.store != w.store {
      AppendKeepsInv(w, v, row);
    }
  }

  lemma AutomaticReserveKeepsInv(w: World, request: MV.Wire)
    requires Inv(w) && Apply(w, ReserveAutomatically(request)).Some?
    ensures Inv(Apply(w, ReserveAutomatically(request)).value)
  {
    var v := Apply(w, ReserveAutomatically(request)).value;
    FullMemory(w.store);
    if v.phase.Dispatched? {
      var a, n := w.phase.artifact, |w.store.rows|;
      var event := MV.Validation(a, request, MV.Reserved, request.issuedAt, None);
      ScopedRowNamed(w.store.rows, a, event);
      var row := MV.Row(Some(a.incident), Some(a.run), event);
      assert v.store.rows == w.store.rows + [row];
      assert forall i | 0 <= i < n :: v.store.rows[i] == w.store.rows[i];
      assert forall i | i in w.automatic :: AutomaticFact(w.store.rows, i);
      forall i | i in w.automatic ensures w.store.rows[i].incident != Some(a.incident) {
        assert AutomaticFact(w.store.rows, i);
      }
    }
  }

  lemma ReopenKeepsInv(w: World)
    requires Inv(w)
    ensures Inv(w.(phase := Resting, store := MV.Apply(w.store, MV.Reopen)))
  {
    assert w.store.rows[..|w.store.rows|] == w.store.rows;
  }

  /** Facts are only appended, and memory is at most extended. */
  lemma {:induction false} RowsGrow(w: World, s: Step)
    requires Behind(w.store) && Apply(w, s).Some?
    ensures var v := Apply(w, s).value;
            && Behind(v.store)
            && |w.store.rows| <= |v.store.rows| && v.store.rows[..|w.store.rows|] == w.store.rows
            && |w.store.journal| <= |v.store.journal|
    decreases s
  {
    FullMemory(w.store);
    var v := Apply(w, s).value;
    if s.Unreported? {
      RowsGrow(w, s.step);
      assert v.store.rows[..|w.store.journal|] == w.store.rows[..|w.store.journal|];
    } else {
      PlainRowsGrow(w, s);
    }
  }

  lemma PlainRowsGrow(w: World, s: Step)
    requires Behind(w.store) && Apply(w, s).Some? && !s.Unreported?
    ensures var v := Apply(w, s).value;
            && Behind(v.store)
            && |w.store.rows| <= |v.store.rows| && v.store.rows[..|w.store.rows|] == w.store.rows
            && |w.store.journal| <= |v.store.journal|
  {
    FullMemory(w.store);
    assert w.store.rows[..|w.store.rows|] == w.store.rows;
    match s
    case ReserveAutomatically(request) => if w.phase.Ready? { OperationAppends(w.store, MV.Reserve(w.phase.artifact, request)); }
    case Answer(receipt, elapsed) =>
      if w.phase.Dispatched? {
        OperationAppends(w.store, match receipt
          case Some(r) => MV.Complete(r, w.phase.request, Some(elapsed))
          case None => MV.Fail(w.phase.artifact, w.phase.request, elapsed));
      }
    case Recover(a, request, uid, gid, reason, now) => OperationAppends(w.store, MV.Recover(a, request, uid, gid, reason, now));
    case ReserveByHand(a, request) => OperationAppends(w.store, MV.Reserve(a, request));
    case Prepare(a) => OperationAppends(w.store, MV.Append(PreparedRow(a)));
    case StageByHand(a) => OperationAppends(w.store, MV.Append(PreparedRow(a)));
    case ImportFact(row) => OperationAppends(w.store, MV.Append(row));
    case _ =>
  }

  lemma {:induction false} StepKeepsInv(w: World, s: Step)
    requires Inv(w) && Apply(w, s).Some?
    ensures Inv(Apply(w, s).value)
    decreases s
  {
    var v := Apply(w, s).value;
    match s
    case ImportFact(row) => ImportKeepsInv(w, row);
    case Prepare(a) => StageKeepsInv(w, a);
    case ReserveAutomatically(request) => AutomaticReserveKeepsInv(w, request);
    case Answer(receipt, elapsed) =>
      OperationKeepsInv(w, v, match receipt
        case Some(r) => MV.Complete(r, w.phase.request, Some(elapsed))
        case None => MV.Fail(w.phase.artifact, w.phase.request, elapsed));
    case Recover(a, request, uid, gid, reason, now) =>
      OperationKeepsInv(w, v, MV.Recover(a, request, uid, gid, reason, now));
    case StageByHand(a) => StageKeepsInv(w, a);
    case ReserveByHand(a, request) => OperationKeepsInv(w, v, MV.Reserve(a, request));
    case Crash => ReopenKeepsInv(w);
    case Unreported(inner) =>
      StepKeepsInv(w, inner);
      RowsGrow(w, s);
    case _ =>
  }

  lemma {:induction false} InvKept(w: World, steps: seq<Step>)
    requires Inv(w) && Run(w, steps).Some?
    ensures Inv(Run(w, steps).value)
    decreases |steps|
  {
    hide Inv, Apply;
    if steps != [] {
      StepKeepsInv(w, steps[0]);
      InvKept(Apply(w, steps[0]).value, steps[1..]);
    }
  }

  /** Every run of a new database keeps candidates, attempts and fact scopes consistent. */
  lemma RunKeepsInv(steps: seq<Step>, w: World)
    requires Run(INITIAL, steps) == Some(w)
    ensures Inv(w)
  {
    InvKept(INITIAL, steps);
  }

  /**
   Over any sequence of dispatch runs, cancellations, crashes, unreported commits, operator
   recoveries and staged repairs, one incident is automatically reserved at most once, and a
   reservation names the incident its run was started for.
   */
  lemma OneAutomaticAttemptPerIncident(steps: seq<Step>, w: World, i: nat, j: nat)
    requires Run(INITIAL, steps) == Some(w)
    requires i in w.automatic && j in w.automatic
    ensures i < |w.store.rows| && j < |w.store.rows|
    ensures w.store.rows[i].incident.Some? && w.store.rows[i].event.Validation? && w.store.rows[i].event.stage == MV.Reserved
    ensures w.store.rows[i].incident == w.store.rows[j].incident ==> i == j
  {
    RunKeepsInv(steps, w);
    assert AutomaticFact(w.store.rows, i) && AutomaticFact(w.store.rows, j);
  }

  lemma AttemptedInPrefix(rows: seq<MV.Row>, more: seq<MV.Row>, incident: string)
    requires |rows| <= |more| && more[..|rows|] == rows && AlreadyAttempted(rows, incident)
    ensures AlreadyAttempted(more, incident)
  {
    var i :| 0 <= i < |rows| && rows[i].event.Validation? && rows[i].run.Some? && rows[i].incident == Some(incident);
    assert more[i] == more[..|rows|][i];
  }

  /** What the journal, or memory, holds as an attempt it holds for good. */
  lemma {:induction false} AttemptedForever(w: World, steps: seq<Step>, incident: string)
    requires Behind(w.store) && Run(w, steps).Some?
    ensures var v := Run(w, steps).value;
            && Behind(v.store)
            && (AlreadyAttempted(w.store.rows, incident) ==> AlreadyAttempted(v.store.rows, incident))
            && (AlreadyAttempted(w.store.journal, incident) ==> AlreadyAttempted(v.store.journal, incident))
    decreases |steps|
  {
    hide Apply, AlreadyAttempted;
    if steps != [] {
      var v := Apply(w, steps[0]).value;
      RowsGrow(w, steps[0]);
      if AlreadyAttempted(w.store.rows, incident) { AttemptedInPrefix(w.store.rows, v.store.rows, incident); }
      if AlreadyAttempted(w.store.journal, incident) {
        assert v.store.journal[..|w.store.journal|] == v.store.rows[..|w.store.rows|][..|w.store.journal|] == w.store.journal;
        AttemptedInPrefix(w.store.journal, v.store.journal, incident);
      }
      AttemptedForever(v, steps[1..], incident);
    }
  }

  /** Once attempted, by whatever run and whatever its outcome, no later dispatch run of the incident starts. */
  lemma NoRestartAfterAttempt(before: seq<Step>, after: seq<Step>, w: World, v: World, incident: string, s: Step)
    requires Run(INITIAL, before) == Some(w) && Run(w, after) == Some(v)
    requires AlreadyAttempted(w.store.journal, incident)
    requires s.Start? && s.contextIncident == incident
    ensures Apply(v, s).None?
  {
    RunKeepsInv(before, w);
    AttemptedForever(w, after, incident);
  }

  /**
   An attempt whose commit was never reported may be unknown to memory, so a later run of its
   incident can start; but no run ever reserves for that incident again.
   */
  lemma NoReservationAfterAttempt(before: seq<Step>, after: seq<Step>, w: World, v: World, request: MV.Wire)
    requires Run(INITIAL, before) == Some(w) && Run(w, after) == Some(v)
    requires v.phase.Ready? && AlreadyAttempted(w.store.rows, v.phase.artifact.incident)
    ensures var r := Apply(v, ReserveAutomatically(request)); r.Some? ==> r.value == v.(phase := Resting)
  {
    RunKeepsInv(before, w);
    InvKept(w, after);
    AttemptedForever(w, after, v.phase.artifact.incident);
    FullMemory(v.store);
  }

  // ---- When a run starts, reserves and records its answer ----

  /** A run starts if and only if its signal selects it and memory holds no scoped attempt of its incident. */
  lemma StartsExactly(w: World, signal: Signal, enrolled: string, contextIncident: string, run: string)
    ensures var s := Start(signal, enrolled, contextIncident, run);
            && (Apply(w, s).Some? <==>
                  && w.phase == Resting && signal == Signal(contextIncident, Firing, enrolled, Some("it-tools")) && run != ""
                  && forall i | 0 <= i < |w.store.journal| ::
                       w.store.journal[i].event.Validation? && w.store.journal[i].run.Some?
                       ==> w.store.journal[i].incident != Some(contextIncident))
            && (Apply(w, s).Some? ==> Apply(w, s).value == w.(phase := Admitted(contextIncident, run)))
  {
  }

  /** The table after a run prepared its artifact: one preparation of it more, unless it was staged before. */
  function WithPreparation(w: World, a: Artifact): seq<MV.Row> {
    if a in w.candidates then w.store.rows else w.store.rows + [MV.Row(Some(a.incident), Some(a.run), MV.Prepared(a))]
  }

  lemma NamedScopes(rows: seq<MV.Row>, a: Artifact, event: MV.Event)
    requires ScopesNamed(rows) && PreparedIn(rows, a)
    ensures MV.OneScope(rows, a)
    ensures forall row | MV.CarriesScope(rows, a, row) && row.event == event :: row == MV.Row(Some(a.incident), Some(a.run), event)
  {
  }

  /** A run that is ready, in step and within the journal's bound reserves exactly a small request of a free artifact. */
  lemma ReadyReserves(w: World, a: Artifact, request: MV.Wire)
    requires Inv(w) && w.phase == Ready(a) && w.store.journal == w.store.rows && |w.store.rows| <= MV.MAX_I64
    ensures var r := Apply(w, ReserveAutomatically(request));
            var fact := MV.Row(Some(a.incident), Some(a.run), MV.Validation(a, request, MV.Reserved, request.issuedAt, None));
            if && a !in w.store.attempts && request.size <= MV.MAX_REQUEST_BYTES
               && forall i | 0 <= i < |w.store.recoveries| :: w.store.recoveries[i].artifact != a || w.store.recoveries[i].request != request
            then r == Some(World(MV.Store(w.store.attempts[a := MV.Attempt(request, None)], w.store.recoveries,
                                          w.store.rows + [fact], w.store.rows + [fact]),
                                 w.candidates, Dispatched(a, request), w.automatic + {|w.store.rows|}))
            else r.Some? ==> r.value == w.(phase := Resting)
  {
    hide MV.ReserveTx, MV.OneScope, MV.CarriesScope, AlreadyAttempted;
    MV.ReservesExactly(w.store, a, request);
    NamedScopes(w.store.rows, a, MV.Validation(a, request, MV.Reserved, request.issuedAt, None));
  }

  /** What a run does undisturbed from its alert to its reservation. */
  function Reserving(signal: Signal, enrolled: string, contextIncident: string, a: Artifact, request: MV.Wire): seq<Step> {
    [Start(signal, enrolled, contextIncident, a.run)] + ([Prepare(a)] + ([ReserveAutomatically(request)] + []))
  }

  /**
   Undisturbed, a run reserves if and only if its alert is the enrolled one and firing for the pilot
   service, incident and run are the artifact's, the incident has no attempt, and the artifact and the
   request are free; it then leaves one open attempt and one fact, under the incident, marked automatic.
   */
  lemma DispatchesExactly(before: seq<Step>, w: World, signal: Signal, enrolled: string, contextIncident: string,
                          a: Artifact, request: MV.Wire)
    requires Run(INITIAL, before) == Some(w) && w.phase.Resting? && w.store.journal == w.store.rows
    requires |w.store.rows| < MV.MAX_I64 && (a in w.candidates ==> PreparedIn(w.store.rows, a))
    ensures var r := Run(w, Reserving(signal, enrolled, contextIncident, a, request));
            var rows := WithPreparation(w, a);
            var fact := MV.Row(Some(a.incident), Some(a.run), MV.Validation(a, request, MV.Reserved, request.issuedAt, None));
            var dispatched := World(MV.Store(w.store.attempts[a := MV.Attempt(request, None)], w.store.recoveries,
                                             rows + [fact], rows + [fact]),
                                    w.candidates + {a}, Dispatched(a, request), w.automatic + {|rows|});
            && (r == Some(dispatched) <==>
                  && signal == Signal(a.incident, Firing, enrolled, Some("it-tools")) && contextIncident == a.incident && a.run != ""
                  && (forall i | 0 <= i < |w.store.rows| && w.store.rows[i].event.Validation? && w.store.rows[i].run.Some? ::
                        w.store.rows[i].incident != Some(a.incident))
                  && a !in w.store.attempts && request.size <= MV.MAX_REQUEST_BYTES
                  && (forall i | 0 <= i < |w.store.recoveries| ::
                        w.store.recoveries[i].artifact != a || w.store.recoveries[i].request != request))
            && (r.Some? && r != Some(dispatched) ==> r.value.phase.Resting? && r.value.automatic == w.automatic)
  {
    RunKeepsInv(before, w);
    var start := Start(signal, enrolled, contextIncident, a.run);
    StartsExactly(w, signal, enrolled, contextIncident, a.run);
    if Apply(w, start).Some? {
      var admitted := Apply(w, start).value;
      StepKeepsInv(w, start);
      RunOn(w, start, admitted, [Prepare(a)] + ([ReserveAutomatically(request)] + []));
      Preparing(admitted, a);
      if a.incident == contextIncident {
        var ready := Apply(admitted, Prepare(a)).value;
        StepKeepsInv(admitted, Prepare(a));
        hide Apply, Inv;
        RunOn(admitted, Prepare(a), ready, [ReserveAutomatically(request)] + []);
        ReserveLast(ready, request);
        ReadyReserves(ready, a, request);
      } else {
        RunStuck(admitted, Prepare(a), [ReserveAutomatically(request)] + []);
      }
    } else {
      RunStuck(w, start, [Prepare(a)] + ([ReserveAutomatically(request)] + []));
    }
  }

  lemma Preparing(w: World, a: Artifact)
    requires w.phase.Admitted? && w.phase.run == a.run && w.store.journal == w.store.rows
    requires a in w.candidates ==> PreparedIn(w.store.rows, a)
    ensures Apply(w, Prepare(a)) == if w.phase.incident == a.incident
                                    then Some(World(w.store.(rows := WithPreparation(w, a), journal := WithPreparation(w, a)),
                                                    w.candidates + {a}, Ready(a), w.automatic))
                                    else None
  {
    if a in w.candidates { assert w.candidates + {a} == w.candidates; }
  }

  lemma ReserveLast(w: World, request: MV.Wire)
    ensures Run(w, [ReserveAutomatically(request)] + []) == Apply(w, ReserveAutomatically(request))
  {
    var s := ReserveAutomatically(request);
    if Apply(w, s).Some? {
      RunOn(w, s, Apply(w, s).value, []);
    } else {
      RunStuck(w, s, []);
    }
  }

  lemma RunStuck(w: World, s: Step, rest: seq<Step>)
    requires Apply(w, s).None?
    ensures Run(w, [s] + rest).None?
  {
    hide Apply;
  }

  /** A dispatched run in step ends in its receipt or in its recorded failure, and rests. */
  lemma AnswersRecorded(w: World, receipt: Option<MV.Receipt>, elapsed: nat)
    requires Inv(w) && w.phase.Dispatched? && w.store.journal == w.store.rows && |w.store.rows| <= MV.MAX_I64
    requires var a := w.phase.artifact;
             PreparedIn(w.store.rows, a) && MV.OpenAttempt(w.store, a, w.phase.request) && elapsed <= MV.MAX_U64
             && (receipt.Some? ==> receipt.value.artifact == a) && MV.TallyOf(w.store.rows, a, w.phase.request, MV.ResponseFailed) == 0
    ensures var (a, request) := (w.phase.artifact, w.phase.request);
            var fact := MV.Row(Some(a.incident), Some(a.run), match receipt
              case Some(r) => MV.Validation(a, request, MV.ReceiptReceived, Some(r.completedAt), Some(elapsed))
              case None => MV.Validation(a, request, MV.ResponseFailed, None, Some(elapsed)));
            Apply(w, Answer(receipt, elapsed))
            == Some(w.(phase := Resting,
                       store := MV.Store(if receipt.Some? then w.store.attempts[a := MV.Attempt(request, receipt)] else w.store.attempts,
                                         w.store.recoveries, w.store.rows + [fact], w.store.rows + [fact])))
  {
    hide MV.CompleteTx, MV.FailTx, MV.OneScope, MV.CarriesScope, MV.TallyOf;
    var (a, request) := (w.phase.artifact, w.phase.request);
    match receipt
    case Some(r) =>
      MV.CompletesExactly(w.store, r, request, Some(elapsed));
      NamedScopes(w.store.rows, a, MV.Validation(a, request, MV.ReceiptReceived, Some(r.completedAt), Some(elapsed)));
    case None =>
      MV.FailsExactly(w.store, a, request, elapsed);
      NamedScopes(w.store.rows, a, MV.Validation(a, request, MV.ResponseFailed, None, Some(elapsed)));
  }

  /**
   The steps around a run: other facts reach table and memory together or not at all, a restart reads
   the table into memory and gives the run up, operators act only between runs, and a commit that is
   not reported reaches the tables alone and ends the run.
   */
  lemma SurroundingsExactly(w: World, s: Step)
    ensures match s
            case ImportFact(row) =>
              Apply(w, s) == if row.event.Validation? || row.event.Prepared? then None
                             else if |w.store.rows| != |w.store.journal| then Some(w)
                             else Some(w.(store := MV.Store(w.store.attempts, w.store.recoveries, w.store.rows + [row], w.store.journal + [row])))
            case Cancel => Apply(w, s) == Some(World(w.store, w.candidates, Resting, w.automatic))
            case Crash =>
              Apply(w, s) == Some(World(MV.Store(w.store.attempts, w.store.recoveries, w.store.rows, w.store.rows), w.candidates, Resting, w.automatic))
            case Recover(a, request, uid, gid, reason, now) =>
              Apply(w, s) == if w.phase != Resting then None
                             else Some(World(MV.Run(w.store, [MV.Recover(a, request, uid, gid, reason, now)]), w.candidates, Resting, w.automatic))
            case ReserveByHand(a, request) =>
              Apply(w, s) == if w.phase != Resting then None
                             else Some(World(MV.Run(w.store, [MV.Reserve(a, request)]), w.candidates, Resting, w.automatic))
            case StageByHand(a) =>
              && (Apply(w, s).Some? <==> && w.phase == Resting
                                         && if a in w.candidates then PreparedIn(w.store.journal, a) else |w.store.rows| == |w.store.journal|)
              && (Apply(w, s).Some? ==>
                    var v := Apply(w, s).value;
                    && v.phase == Resting && v.automatic == w.automatic && v.candidates == w.candidates + {a}
                    && v.store == (if a in w.candidates then w.store
                                   else MV.Store(w.store.attempts, w.store.recoveries, WithPreparation(w, a), w.store.journal + [PreparedRow(a)])))
            case Unreported(inner) =>
              && (Apply(w, s).Some? <==> Apply(w, inner).Some?)
              && (Apply(w, s).Some? ==>
                    var (v, u) := (Apply(w, inner).value, Apply(w, s).value);
                    && u.phase == Resting && u.candidates == v.candidates && u.automatic == v.automatic
                    && u.store == MV.Store(v.store.attempts, v.store.recoveries, v.store.rows, w.store.journal))
            case _ => true
  {
    match s
    case Recover(a, request, uid, gid, reason, now) => OneOperation(w.store, MV.Recover(a, request, uid, gid, reason, now));
    case ReserveByHand(a, request) => OneOperation(w.store, MV.Reserve(a, request));
    case StageByHand(a) => if a in w.candidates { assert w.candidates + {a} == w.candidates; }
    case _ =>
  }

  lemma OneOperation(s: MV.Store, op: MV.Op)
    ensures MV.Run(s, [op]) == MV.Apply(s, op)
  {
    assert [] + [op] == [op];
    MV.RunThenApply(s, [], op);
  }

  lemma RunOn(w: World, s: Step, v: World, rest: seq<Step>)
    requires Apply(w, s) == Some(v)
    ensures Run(w, [s] + rest) == Run(v, rest)
  {
    hide Apply;
    assert ([s] + rest)[1..] == rest;
  }

  lemma RunDone(w: World)
    ensures Run(w, []) == Some(w)
  {
  }

  lemma PreparedAlone(a: Artifact)
    ensures MV.FirstPrepared([PreparedRow(a)], a) == 0 && MV.ScopeSettled([PreparedRow(a)], a)
  {
    assert [PreparedRow(a)][..0] == [];
  }

  /** The first reservation, of a prepared artifact in a new store. */
  lemma FirstReservation(a: Artifact, request: MV.Wire, candidates: set<Artifact>)
    requires request.size <= MV.MAX_REQUEST_BYTES
    ensures var before := World(MV.Store(map[], [], [PreparedRow(a)], [PreparedRow(a)]), candidates, Ready(a), {});
            var fact := MV.Row(Some(a.incident), Some(a.run), MV.Validation(a, request, MV.Reserved, request.issuedAt, None));
            Apply(before, Unreported(ReserveAutomatically(request)))
            == Some(World(MV.Store(map[a := MV.Attempt(request, None)], [], [PreparedRow(a), fact], [PreparedRow(a)]), candidates,
                          Resting, {1}))
  {
    hide MV.FirstPrepared, MV.ScopeSettled;
    PreparedAlone(a);
    var s := MV.Store(map[], [], [PreparedRow(a)], [PreparedRow(a)]);
    assert !MV.Recovered(s, a, request);
    var fact := MV.Row(Some(a.incident), Some(a.run), MV.Validation(a, request, MV.Reserved, request.issuedAt, None));
    assert [PreparedRow(a)] + [fact] == [PreparedRow(a), fact];
    assert map[][a := MV.Attempt(request, None)] == map[a := MV.Attempt(request, None)];
    assert MV.ScopedRow(s.rows, a, fact.event) == fact;
    assert World(s, candidates, Ready(a), {}).automatic + {|s.rows|} == {1};
    assert MV.ReserveTx(s, a, request) == Ok((s.(attempts := map[a := MV.Attempt(request, None)], rows := [PreparedRow(a), fact],
                                                 journal := [PreparedRow(a), fact]), true));
  }

  /**
   The instance: the reservation of a first run is not reported, so memory does not know of it and a
   second run of the same incident starts, although the table records the attempt.
   */
  lemma UnreportedAttemptRestarts(enrolled: string, a: Artifact, request: MV.Wire, run: string)
    requires a.run != "" && run != "" && request.size <= MV.MAX_REQUEST_BYTES
    ensures var signal := Signal(a.incident, Firing, enrolled, Some("it-tools"));
            var w := Run(INITIAL, [Start(signal, enrolled, a.incident, a.run)] + ([Prepare(a)]
                                  + ([Unreported(ReserveAutomatically(request))] + ([Start(signal, enrolled, a.incident, run)] + []))));
            && w.Some? && w.value.phase == Admitted(a.incident, run) && AlreadyAttempted(w.value.store.rows, a.incident)
  {
    var signal := Signal(a.incident, Firing, enrolled, Some("it-tools"));
    var fact := MV.Row(Some(a.incident), Some(a.run), MV.Validation(a, request, MV.Reserved, request.issuedAt, None));
    var w1 := INITIAL.(phase := Admitted(a.incident, a.run));
    var w2 := World(MV.Store(map[], [], [PreparedRow(a)], [PreparedRow(a)]), {a}, Ready(a), {});
    var w3 := World(MV.Store(map[a := MV.Attempt(request, None)], [], [PreparedRow(a), fact], [PreparedRow(a)]), {a}, Resting, {1});
    var w4 := w3.(phase := Admitted(a.incident, run));
    assert Apply(INITIAL, Start(signal, enrolled, a.incident, a.run)) == Some(w1);
    assert [] + [PreparedRow(a)] == [PreparedRow(a)] && {} + {a} == {a};
    assert Apply(w1, Prepare(a)) == Some(w2);
    FirstReservation(a, request, {a});
    assert Apply(w3, Start(signal, enrolled, a.incident, run)) == Some(w4);
    assert w4.store.rows[1] == fact;
    hide Apply, Run;
    RunDone(w4);
    RunOn(w3, Start(signal, enrolled, a.incident, run), w4, []);
    RunOn(w2, Unreported(ReserveAutomatically(request)), w3, [Start(signal, enrolled, a.incident, run)] + []);
    RunOn(w1, Prepare(a), w2, [Unreported(ReserveAutomatically(request))] + ([Start(signal, enrolled, a.incident, run)] + []));
    RunOn(INITIAL, Start(signal, enrolled, a.incident, a.run), w1,
          [Prepare(a)] + ([Unreported(ReserveAutomatically(request))] + ([Start(signal, enrolled, a.incident, run)] + [])));
  }
}
