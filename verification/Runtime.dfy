/**
 The incident runtime: provider attempts joined with journal facts (src/reasoning/runtime.rs), and
 the scripted fallback run against a recursive reference.
 */
module Runtime {
  import opened Outcomes
  import opened Budget
  import opened Coordinator
  import opened Evidence
  import Text

  datatype Report = Report(summary: string, evidence: seq<string>)

  datatype Event =
    | PhaseStarted(at: U64) | PhaseFinished(at: U64) | ProviderAttempt(attempt: Attempt) | TerminalReached(provider: ProviderKind)
    | EvidenceCommitted(evidenceId: string, at: U64) | ToolContext(callId: string, outputBytes: nat, at: U64)

  datatype RuntimeError = Coordination(error: CoordinatorError) | EvidenceRejected

  /** `validate_against`: a summary, at least one citation, and only known evidence. */
  predicate ValidReport(r: Report, evidence: set<string>) {
    !Text.Blank(r.summary) && r.evidence != [] && forall i | 0 <= i < |r.evidence| :: r.evidence[i] in evidence
  }

  /** The summary says something, something is cited, and every citation is among the given identifiers. */
  ghost predicate Supported(r: Report, evidence: set<string>) {
    && (exists i | 0 <= i < |r.summary| :: !Text.IsWhitespace(r.summary[i]))
    && |r.evidence| > 0 && (forall cited | cited in r.evidence :: cited in evidence)
  }

  /** The source's check of a report, said without it. */
  lemma ValidExactly(r: Report, evidence: set<string>)
    ensures ValidReport(r, evidence) <==> Supported(r, evidence)
  {
    hide Text.IsWhitespace;
    assert forall i | 0 <= i < |r.evidence| :: r.evidence[i] in r.evidence;
    assert Text.Blank(r.summary) <==> forall i | 0 <= i < |r.summary| :: Text.IsWhitespace(r.summary[i]);
    assert (forall cited | cited in r.evidence :: cited in evidence) <==> (forall i | 0 <= i < |r.evidence| :: r.evidence[i] in evidence);
  }

  /** Against a board: every citation is the identifier of one of its records. */
  lemma CitationIsRecord(r: Report, records: seq<Record>, i: nat)
    requires Supported(r, Ids(records)) && i < |r.evidence|
    ensures exists k | 0 <= k < |records| :: records[k].id == r.evidence[i]
  {
    assert r.evidence[i] in r.evidence;
    var x :| x in records && x.id == r.evidence[i];
    var k :| 0 <= k < |records| && records[k] == x;
  }

  /** One citation that is no record's identifier is enough to refuse a report. */
  lemma UnknownCitationRefused(r: Report, records: seq<Record>, i: nat)
    requires i < |r.evidence| && forall k | 0 <= k < |records| :: records[k].id != r.evidence[i]
    ensures !ValidReport(r, Ids(records))
  {
    assert forall x | x in records :: x.id != r.evidence[i];
    assert r.evidence[i] !in Ids(records);
  }

  /** What the runtime holds besides the evidence board. */
  datatype View = View(state: State, journal: seq<Event>, report: Option<Report>)

  function AdmitProviderTx(p: Plan, v: View, r: Reservation, at: U64): (Result<Option<ProviderKind>, CoordinatorError>, View) {
    var started := v.(journal := v.journal + [PhaseStarted(at)]);
    if NextProvider(p, v.state) == Some(Deterministic) then
      var (kind, state) := AdmitDeterministicTx(p, v.state);
      (Ok(kind), started.(state := state))
    else
      var (result, state) := AdmitTx(p, v.state, r);
      (result, started.(state := state))
  }

  function FailProviderTx(v: View, provider: ProviderKind, failure: FailureClass, facts: AttemptFacts, at: U64): (Result<(), CoordinatorError>, View) {
    var (r, state) := FailTx(v.state, provider, failure, facts);
    if r.Err? then (r, v.(state := state))
    else (r, v.(state := state, journal := v.journal + [ProviderAttempt(state.attempts[|state.attempts| - 1]), PhaseFinished(at)]))
  }

  function SucceedProviderTx(v: View, provider: ProviderKind, facts: AttemptFacts, at: U64): (Result<RunStatus, CoordinatorError>, View) {
    var (r, state) := SucceedTx(v.state, provider, facts);
    if r.Err? then (r, v.(state := state))
    else
      (r, v.(state := state, journal := v.journal + [ProviderAttempt(state.attempts[|state.attempts| - 1]), PhaseFinished(at), TerminalReached(provider)]))
  }

  /** A busy or ended run admits nobody; the phase was journalled all the same. */
  lemma BusyAdmitsNobody(p: Plan, v: View, r: Reservation, at: U64)
    requires v.state.status.Some? || v.state.active.Some?
    ensures AdmitProviderTx(p, v, r, at)
            == (if v.state.status.Some? then Ok(None) else Err(NoActiveRun), View(v.state, v.journal + [PhaseStarted(at)], v.report))
  {
  }

  /**
   Reports reach the journal if and only if the active provider makes them: its attempt with its facts,
   the end of the phase, and for a success that the run is over.
   */
  lemma ReportsJournalled(v: View, provider: ProviderKind, failure: FailureClass, facts: AttemptFacts, at: U64)
    ensures var (failed, t) := FailProviderTx(v, provider, failure, facts, at);
            var (succeeded, u) := SucceedProviderTx(v, provider, facts, at);
            && (failed.Ok? <==> v.state.active == Some(provider)) && (succeeded.Ok? <==> v.state.active == Some(provider))
            && t.report == v.report && u.report == v.report
            && (v.state.active == Some(provider) ==>
                  && t.state == State(v.state.spent, v.state.attempted, None, v.state.status, v.state.attempts + [Attempt(provider, Failed(failure), facts)])
                  && t.journal == v.journal + [ProviderAttempt(Attempt(provider, Failed(failure), facts)), PhaseFinished(at)]
                  && succeeded == Ok(Succeeded(provider))
                  && u.state == State(v.state.spent, v.state.attempted, None, Some(Succeeded(provider)), v.state.attempts + [Attempt(provider, Accepted, facts)])
                  && u.journal == v.journal + [ProviderAttempt(Attempt(provider, Accepted, facts)), PhaseFinished(at), TerminalReached(provider)])
            && (v.state.active != Some(provider) ==>
                  && failed == Err(if v.state.active.None? then NoActiveRun else WrongProvider)
                  && succeeded == Err(if v.state.active.None? then NoActiveRun else WrongProvider)
                  && t == View(State(v.state.spent, v.state.attempted, None, v.state.status, v.state.attempts), v.journal, v.report)
                  && u == v)
  {
    ReportsExactly(v.state, provider, failure, facts);
  }

  // ---- Recorded runs ----

  datatype RecordedOutcome = Success(json: string) | Failure(failure: FailureClass)

  datatype RecordedAttempt = RecordedAttempt(outcome: RecordedOutcome, facts: AttemptFacts)

  datatype RecordedProvider = RecordedProvider(provider: ProviderKind, attempts: seq<RecordedAttempt>)

  /** The recording `find` selects for a provider. */
  function Find(recordings: seq<RecordedProvider>, kind: ProviderKind): (i: nat)
    ensures i <= |recordings| && (i < |recordings| ==> recordings[i].provider == kind)
    ensures forall j | 0 <= j < i :: recordings[j].provider != kind
  {
    if recordings == [] || recordings[0].provider == kind then 0 else 1 + Find(recordings[1..], kind)
  }

  function Upcoming(recordings: seq<RecordedProvider>, kind: ProviderKind): Option<RecordedAttempt> {
    var i := Find(recordings, kind);
    if i < |recordings| && recordings[i].attempts != [] then Some(recordings[i].attempts[0]) else None
  }

  /** The recordings once the provider's own, if it has any left, gave up its next attempt. */
  function Taken(recordings: seq<RecordedProvider>, kind: ProviderKind): seq<RecordedProvider> {
    var i := Find(recordings, kind);
    if i < |recordings| && recordings[i].attempts != []
    then recordings[i := recordings[i].(attempts := recordings[i].attempts[1..])] else recordings
  }

  /** The recording taken from is the provider's first, and it gives up its next attempt, if it has one; the others stay. */
  lemma TakenExactly(recordings: seq<RecordedProvider>, kind: ProviderKind, k: nat)
    requires k < |recordings|
    ensures var first := recordings[k].provider == kind && forall j | 0 <= j < k :: recordings[j].provider != kind;
            && |Taken(recordings, kind)| == |recordings| && Taken(recordings, kind)[k].provider == recordings[k].provider
            && Taken(recordings, kind)[k].attempts
               == if first && recordings[k].attempts != [] then recordings[k].attempts[1..] else recordings[k].attempts
  {
  }

  /** The next attempt is the first one of the provider's first recording. */
  lemma UpcomingExactly(recordings: seq<RecordedProvider>, kind: ProviderKind, a: RecordedAttempt)
    ensures Upcoming(recordings, kind) == Some(a) <==>
              exists k | 0 <= k < |recordings| ::
                && recordings[k].provider == kind && (forall j | 0 <= j < k :: recordings[j].provider != kind)
                && recordings[k].attempts != [] && recordings[k].attempts[0] == a
  {
  }

  /** What a run leaves of the recordings: each attempted provider took one. */
  function Consumed(recordings: seq<RecordedProvider>, kinds: seq<ProviderKind>): seq<RecordedProvider> {
    if kinds == [] then recordings else Taken(Consumed(recordings, kinds[..|kinds| - 1]), kinds[|kinds| - 1])
  }

  lemma ConsumedNext(recordings: seq<RecordedProvider>, done: seq<Attempt>, a: Attempt)
    ensures Consumed(recordings, Providers(done + [a])) == Taken(Consumed(recordings, Providers(done)), a.provider)
  {
    var kinds := Providers(done + [a]);
    assert kinds[..|kinds| - 1] == Providers(done) && kinds[|kinds| - 1] == a.provider;
  }

  lemma ConsumedNothing(recordings: seq<RecordedProvider>)
    ensures Consumed(recordings, Providers([])) == recordings
  {
  }

  /** Taking from one provider leaves the next attempt of every other alone. */
  lemma TakenElsewhere(recordings: seq<RecordedProvider>, kind: ProviderKind, other: ProviderKind)
    requires other != kind
    ensures Upcoming(Taken(recordings, kind), other) == Upcoming(recordings, other)
  {
    FindIs(Taken(recordings, kind), other, Find(recordings, other));
  }

  /** How one scripted provider run ends: its record, and the report if it is accepted. */
  function Judged(parse: string -> Option<Report>, evidence: set<string>, kind: ProviderKind, a: Option<RecordedAttempt>): (Attempt, Option<Report>) {
    match a
    case None => (Attempt(kind, Failed(TemporarilyUnavailable), NO_FACTS), None)
    case Some(RecordedAttempt(Failure(f), facts)) => (Attempt(kind, Failed(f), facts), None)
    case Some(RecordedAttempt(Success(json), facts)) =>
      var report := parse(json);
      if report.Some? && ValidReport(report.value, evidence) then (Attempt(kind, Accepted, facts), report)
      else (Attempt(kind, Failed(MalformedResponse), facts), None)
  }

  datatype Ending = Ending(result: Result<RunStatus, CoordinatorError>, attempts: seq<Attempt>, report: Option<Report>)

  /**
   The intended meaning of a fallback run: candidates are tried in order, each once and from its own
   recording, until one is accepted, none is left, or the budget refuses the next.
   */
  function Fallback(p: Plan, parse: string -> Option<Report>, evidence: set<string>, recordings: seq<RecordedProvider>,
                    candidates: seq<ProviderKind>, spent: Totals, r: Reservation): Ending
    decreases |candidates|
  {
    if candidates == [] then Ending(Ok(Exhausted), [], None) else
    var kind := candidates[0];
    if kind != Deterministic && Exceeded(p.budget, spent, r).Some? then
      Ending(Err(OverBudget(Exceeded(p.budget, spent, r).value)), [], None)
    else
      var (attempt, report) := Judged(parse, evidence, kind, Upcoming(recordings, kind));
      if attempt.outcome.Accepted? then Ending(Ok(Succeeded(kind)), [attempt], report)
      else
        var rest := Fallback(p, parse, evidence, recordings, candidates[1..], if kind == Deterministic then spent else Added(spent, r), r);
        rest.(attempts := [attempt] + rest.attempts)
  }

  /** The provider attempts a journal records. */
  function AttemptsIn(journal: seq<Event>): seq<Attempt> {
    if journal == [] then [] else
    var last := journal[|journal| - 1];
    AttemptsIn(journal[..|journal| - 1]) + if last.ProviderAttempt? then [last.attempt] else []
  }

  lemma AttemptsInAppend(journal: seq<Event>, e: Event)
    ensures AttemptsIn(journal + [e]) == AttemptsIn(journal) + if e.ProviderAttempt? then [e.attempt] else []
  {
    assert (journal + [e])[..|journal|] == journal;
  }

  /** Journal and coordinator tell the same attempts. */
  ghost predicate Consistent(p: Plan, v: View) {
    Inv(p, v.state) && AttemptsIn(v.journal) == v.state.attempts
  }

  /** The candidates still ahead of an idle run. */
  function Ahead(p: Plan, s: State): seq<ProviderKind> {
    var c := Candidates(p.order, p.admitted);
    if |s.attempted| <= |c| then c[|s.attempted|..] else []
  }

  /** Admission of an idle run takes the first candidate ahead, or ends the run. */
  lemma AdmitProviderAt(p: Plan, v: View, r: Reservation, at: U64)
    requires Consistent(p, v) && v.state.status.None? && v.state.active.None?
    ensures var (result, t) := AdmitProviderTx(p, v, r, at);
            var ahead := Ahead(p, v.state);
            && Consistent(p, t) && t.state.attempts == v.state.attempts && t.report == v.report
            && t.journal == v.journal + [PhaseStarted(at)]
            && (ahead == [] ==> result == Ok(None) && t.state == v.state.(status := Some(Exhausted)))
            && (ahead != [] ==>
                  var exceeded := Exceeded(p.budget, v.state.spent, r);
                  if ahead[0] != Deterministic && exceeded.Some? then result == Err(OverBudget(exceeded.value)) && t.state == v.state
                  else
                    && result == Ok(Some(ahead[0])) && t.state.active == Some(ahead[0]) && t.state.status.None?
                    && Ahead(p, t.state) == ahead[1..]
                    && t.state.spent == if ahead[0] == Deterministic then v.state.spent else Added(v.state.spent, r))
  {
    hide Inv, Candidates, Next, Exceeded, Added;
    NextIsCandidate(p, v.state);
    AttemptsInAppend(v.journal, PhaseStarted(at));
    ProgressOf(p, v.state);
    if NextProvider(p, v.state) == Some(Deterministic) {
      ApplyKeepsInv(p, v.state, AdmitDeterministic);
    } else {
      ApplyKeepsInv(p, v.state, Admit(r));
    }
  }

  lemma ProgressOf(p: Plan, s: State)
    requires Inv(p, s)
    ensures |s.attempted| <= |Candidates(p.order, p.admitted)|
    ensures |s.attempted| < |Candidates(p.order, p.admitted)| ==>
              var next := Candidates(p.order, p.admitted)[|s.attempted|]; next !in s.attempted
    ensures s.active.Some? ==> s.status.None?
    ensures Distinct(Candidates(p.order, p.admitted))
  {
    hide Candidates, Terminal, Recorded;
    var c, k := Candidates(p.order, p.admitted), |s.attempted|;
    assert k < |c| ==> c[k] !in c[..k];
  }

  lemma FailProviderAt(p: Plan, v: View, failure: FailureClass, facts: AttemptFacts, at: U64)
    requires Consistent(p, v) && v.state.active.Some?
    ensures var kind := v.state.active.value;
            var (r, t) := FailProviderTx(v, kind, failure, facts, at);
            && r.Ok? && Consistent(p, t) && t.state.active.None? && t.state.status == v.state.status
            && t.state.attempts == v.state.attempts + [Attempt(kind, Failed(failure), facts)]
            && t.state.attempted == v.state.attempted && t.state.spent == v.state.spent && t.report == v.report
  {
    hide Inv;
    var kind := v.state.active.value;
    ApplyKeepsInv(p, v.state, Fail(kind, failure, facts));
    var a := Attempt(kind, Failed(failure), facts);
    TwoEvents(v.journal, ProviderAttempt(a), PhaseFinished(at));
  }

  lemma TwoEvents(journal: seq<Event>, a: Event, b: Event)
    ensures AttemptsIn(journal + [a, b]) == AttemptsIn(journal) + (if a.ProviderAttempt? then [a.attempt] else []) + if b.ProviderAttempt? then [b.attempt] else []
  {
    AttemptsInAppend(journal, a);
    AttemptsInAppend(journal + [a], b);
    assert journal + [a, b] == journal + [a] + [b];
  }

  lemma SucceedProviderAt(p: Plan, v: View, facts: AttemptFacts, at: U64)
    requires Consistent(p, v) && v.state.active.Some?
    ensures var kind := v.state.active.value;
            var (r, t) := SucceedProviderTx(v, kind, facts, at);
            && r == Ok(Succeeded(kind)) && Consistent(p, t) && t.state.active.None? && t.state.status == Some(Succeeded(kind))
            && t.state.attempts == v.state.attempts + [Attempt(kind, Accepted, facts)]
            && t.state.attempted == v.state.attempted && t.report == v.report
  {
    hide Inv;
    var kind := v.state.active.value;
    ApplyKeepsInv(p, v.state, Succeed(kind, facts));
    var a := Attempt(kind, Accepted, facts);
    TwoEvents(v.journal, ProviderAttempt(a), PhaseFinished(at));
    AttemptsInAppend(v.journal + [ProviderAttempt(a), PhaseFinished(at)], TerminalReached(kind));
    assert v.journal + [ProviderAttempt(a), PhaseFinished(at), TerminalReached(kind)]
           == v.journal + [ProviderAttempt(a), PhaseFinished(at)] + [TerminalReached(kind)];
  }

  // ---- The recorded run against its reference ----

  function Behind(done: seq<Attempt>, e: Ending): Ending {
    e.(attempts := done + e.attempts)
  }

  lemma BehindNothing(e: Ending)
    ensures Behind([], e) == e
  {
    assert [] + e.attempts == e.attempts;
  }

  lemma BehindTwice(done: seq<Attempt>, a: Attempt, e: Ending)
    ensures Behind(done, Behind([a], e)) == Behind(done + [a], e)
  {
    assert done + ([a] + e.attempts) == done + [a] + e.attempts;
  }

  /** Consuming earlier recordings left those of the providers ahead alone. */
  ghost predicate SameAhead(left: seq<RecordedProvider>, recordings: seq<RecordedProvider>, ahead: seq<ProviderKind>) {
    forall i | 0 <= i < |ahead| :: Upcoming(left, ahead[i]) == Upcoming(recordings, ahead[i])
  }

  lemma FindIs(recordings: seq<RecordedProvider>, kind: ProviderKind, i: nat)
    requires i <= |recordings| && (i < |recordings| ==> recordings[i].provider == kind)
    requires forall j | 0 <= j < i :: recordings[j].provider != kind
    ensures Find(recordings, kind) == i
  {
  }

  /** One candidate of the reference, given that the budget admits it. */
  lemma FallbackStep(p: Plan, parse: string -> Option<Report>, evidence: set<string>, recordings: seq<RecordedProvider>,
                     ahead: seq<ProviderKind>, spent: Totals, r: Reservation)
    requires ahead != [] && (ahead[0] == Deterministic || Exceeded(p.budget, spent, r).None?)
    ensures var kind := ahead[0];
            var (attempt, report) := Judged(parse, evidence, kind, Upcoming(recordings, kind));
            var next := if kind == Deterministic then spent else Added(spent, r);
            Fallback(p, parse, evidence, recordings, ahead, spent, r)
            == if attempt.outcome.Accepted? then Ending(Ok(Succeeded(kind)), [attempt], report)
            else Behind([attempt], Fallback(p, parse, evidence, recordings, ahead[1..], next, r))
  {
    hide Judged, Upcoming, Exceeded, Added;
  }

  /** The reference stops where nothing is left, or where the budget refuses. */
  lemma FallbackStops(p: Plan, parse: string -> Option<Report>, evidence: set<string>, recordings: seq<RecordedProvider>,
                      ahead: seq<ProviderKind>, spent: Totals, r: Reservation)
    ensures ahead == [] ==> Fallback(p, parse, evidence, recordings, ahead, spent, r) == Ending(Ok(Exhausted), [], None)
    ensures ahead != [] && ahead[0] != Deterministic && Exceeded(p.budget, spent, r).Some? ==>
              Fallback(p, parse, evidence, recordings, ahead, spent, r) == Ending(Err(OverBudget(Exceeded(p.budget, spent, r).value)), [], None)
  {
    hide Judged, Upcoming, Exceeded, Added;
  }

  lemma BehindParts(done: seq<Attempt>, e: Ending)
    ensures Behind(done, e).result == e.result && Behind(done, e).report == e.report && Behind(done, e).attempts == done + e.attempts
    ensures e.attempts == [] ==> Behind(done, e).attempts == done
  {
  }

  lemma NothingConsumed(recordings: seq<RecordedProvider>, ahead: seq<ProviderKind>)
    ensures SameAhead(recordings, recordings, ahead)
  {
  }

  /** The candidates ahead are distinct, so consuming the first one's recording leaves the others' alone. */
  lemma TailAhead(p: Plan, v: View, left: seq<RecordedProvider>, recordings: seq<RecordedProvider>)
    requires Consistent(p, v) && Ahead(p, v.state) != [] && SameAhead(left, recordings, Ahead(p, v.state))
    ensures var ahead := Ahead(p, v.state);
            && Upcoming(left, ahead[0]) == Upcoming(recordings, ahead[0])
            && SameAhead(left, recordings, ahead[1..]) && ahead[0] !in ahead[1..]
  {
    hide Inv, Candidates, Upcoming;
    ProgressOf(p, v.state);
  }

  lemma AnyReport(p: Plan, v: View, report: Option<Report>)
    requires Consistent(p, v)
    ensures Consistent(p, v.(report := report))
  {
  }

  lemma StillAhead(rest: seq<RecordedProvider>, left: seq<RecordedProvider>, recordings: seq<RecordedProvider>, kind: ProviderKind, ahead: seq<ProviderKind>)
    requires SameAhead(left, recordings, ahead) && kind !in ahead
    requires rest == Taken(left, kind)
    ensures SameAhead(rest, recordings, ahead)
  {
    hide Upcoming, Taken;
    forall i | 0 <= i < |ahead| ensures Upcoming(rest, ahead[i]) == Upcoming(recordings, ahead[i]) {
      TakenElsewhere(left, kind, ahead[i]);
    }
  }

  lemma SameProgress(p: Plan, s: State, t: State)
    requires s.attempted == t.attempted
    ensures Ahead(p, s) == Ahead(p, t)
  {
  }

  /** Admission of a run that ended, or that still has an active provider. */
  lemma NotIdle(p: Plan, v: View, r: Reservation, at: U64)
    requires Consistent(p, v) && (v.state.status.Some? || v.state.active.Some?)
    ensures var (result, t) := AdmitProviderTx(p, v, r, at);
            && t == v.(journal := v.journal + [PhaseStarted(at)]) && Consistent(p, t)
            && result == if v.state.status.Some? then Ok(None) else Err(NoActiveRun)
  {
    hide Inv, Next, Exceeded, Added;
    AttemptsInAppend(v.journal, PhaseStarted(at));
  }

  class IncidentRuntime {
    const run: ReasoningRun
    const board: EvidenceBoard
    var journal: seq<Event>
    var report: Option<Report>

    ghost function Now(): View
      reads this, run, run.budget
    {
      View(run.Now(), journal, report)
    }

    ghost predicate Valid()
      reads this, run, run.budget, board
    {
      Consistent(run.Planned(), Now()) && BoardInv(board.records)
    }

    constructor (run: ReasoningRun)
      requires run.Now() == FRESH && ValidPlan(run.Planned())
      ensures this.run == run && fresh(board) && board.records == [] && Now() == View(FRESH, [], None) && Valid()
    {
      this.run, journal, report := run, [], None;
      board := new EvidenceBoard();
      new;
      FreshInv(run.Planned());
    }

    method AdmitProvider(r: Reservation, at: U64) returns (result: Result<Option<ProviderKind>, CoordinatorError>)
      modifies this`journal, run, run.budget
      ensures (result, Now()) == AdmitProviderTx(run.Planned(), old(Now()), r, at)
    {
      hide AdmitTx, NextProvider;
      journal := journal + [PhaseStarted(at)];
      var next := run.FindNextProvider();
      if next == Some(Deterministic) {
        var kind := run.AdmitDeterministic();
        return Ok(kind);
      }
      result := run.Admit(r);
    }

    method FailProvider(provider: ProviderKind, failure: FailureClass, facts: AttemptFacts, at: U64) returns (r: Result<(), CoordinatorError>)
      modifies this`journal, run
      ensures (r, Now()) == FailProviderTx(old(Now()), provider, failure, facts, at)
    {
      r := run.FailWith(provider, failure, facts);
      if r.Err? { return; }
      journal := journal + [ProviderAttempt(run.attempts[|run.attempts| - 1])];
      journal := journal + [PhaseFinished(at)];
      assert old(journal) + [ProviderAttempt(run.attempts[|run.attempts| - 1])] + [PhaseFinished(at)]
             == old(journal) + [ProviderAttempt(run.attempts[|run.attempts| - 1]), PhaseFinished(at)];
    }

    method SucceedProvider(provider: ProviderKind, facts: AttemptFacts, at: U64) returns (r: Result<RunStatus, CoordinatorError>)
      modifies this`journal, run
      ensures (r, Now()) == SucceedProviderTx(old(Now()), provider, facts, at)
    {
      r := run.SucceedWith(provider, facts);
      if r.Err? { return; }
      var recorded := ProviderAttempt(run.attempts[|run.attempts| - 1]);
      journal := journal + [recorded];
      journal := journal + [PhaseFinished(at)];
      journal := journal + [TerminalReached(provider)];
      assert old(journal) + [recorded] + [PhaseFinished(at)] + [TerminalReached(provider)]
             == old(journal) + [recorded, PhaseFinished(at), TerminalReached(provider)];
    }

    /** What the board accepts is journalled under the board's identifier; a refusal changes nothing. */
    method CommitEvidence(query: string, payload: Payload, at: U64) returns (r: Result<string, EvidenceError>)
      modifies this`journal, board
      ensures match CommitTx(old(board.records), query, payload)
              case Ok((records, id)) =>
                r == Ok(id) && board.records == records && Now() == old(Now()).(journal := old(journal) + [EvidenceCommitted(id, at)])
              case Err(e) => r == Err(e) && board.records == old(board.records) && Now() == old(Now())
      ensures old(Valid()) ==> Valid()
    {
      hide CommitTx, BoardInv, Inv, Coordinator.Run;
      if BoardInv(board.records) { CommitKeepsBoard(board.records, query, payload); }
      r := board.Commit(query, payload);
      if r.Err? { return; }
      AttemptsInAppend(journal, EvidenceCommitted(r.value, at));
      journal := journal + [EvidenceCommitted(r.value, at)];
    }

    method RecordToolContext(callId: string, outputBytes: nat, at: U64)
      modifies this`journal
      ensures Now() == old(Now()).(journal := old(journal) + [ToolContext(callId, outputBytes, at)])
      ensures old(Valid()) ==> Valid()
    {
      AttemptsInAppend(journal, ToolContext(callId, outputBytes, at));
      journal := journal + [ToolContext(callId, outputBytes, at)];
    }

    /** Accepts a report only if its citations resolve. */
    method SucceedProviderWithReport(provider: ProviderKind, accepted: Report, facts: AttemptFacts, at: U64)
      returns (r: Result<RunStatus, RuntimeError>)
      modifies this`journal, this`report, run
      ensures !Supported(accepted, Ids(board.records)) ==> r == Err(EvidenceRejected) && Now() == old(Now())
      ensures Supported(accepted, Ids(board.records)) ==>
                var (result, v) := SucceedProviderTx(old(Now()).(report := Some(accepted)), provider, facts, at);
                r == (match result case Ok(s) => Ok(s) case Err(e) => Err(Coordination(e))) && Now() == v
    {
      hide ValidReport, SucceedTx, Supported;
      ValidExactly(accepted, Ids(board.records));
      if !ValidReport(accepted, Ids(board.records)) { return Err(EvidenceRejected); }
      report := Some(accepted);
      var succeeded := SucceedProvider(provider, facts, at);
      return match succeeded case Ok(s) => Ok(s) case Err(e) => Err(Coordination(e));
    }

    /**
     A complete scripted run. It terminates because every admission takes a candidate; from an idle
     run its result, its attempts and its report are those of the reference.
     */
    method RunRecorded(parse: string -> Option<Report>, recordings: seq<RecordedProvider>, r: Reservation, start: U64)
      returns (result: Result<RunStatus, CoordinatorError>, left: seq<RecordedProvider>)
      requires Valid()
      modifies this`journal, this`report, run, run.budget
      ensures Valid()
      ensures var was := old(Now());
              was.state.status.Some? ==> result == Ok(was.state.status.value) && Now() == was.(journal := was.journal + [PhaseStarted(start)])
      ensures var was := old(Now());
              was.state.status.None? && was.state.active.Some? ==> result == Err(NoActiveRun) && Now() == was.(journal := was.journal + [PhaseStarted(start)])
      ensures var was := old(Now());
              was.state.status.None? && was.state.active.None? ==>
                var ending := Fallback(run.Planned(), parse, old(Ids(board.records)), recordings, Ahead(run.Planned(), was.state), was.state.spent, r);
                && result == ending.result
                && Now().state.attempts == was.state.attempts + ending.attempts
                && Now().report == (if ending.report.Some? then ending.report else was.report)
                && Now().state.status == (match result case Ok(s) => Some(s) case Err(_) => None)
                && left == Consumed(recordings, Providers(ending.attempts))
      ensures old(run.status).Some? || old(run.active).Some? ==> left == recordings
    {
      hide Consistent, Inv, Candidates, AdmitProviderTx, FailProviderTx, SucceedProviderTx, Fallback, Judged, Upcoming, SameAhead, Ahead,
           Exceeded, Added, Behind, Consumed, Taken, Providers, Find, BoardInv;
      ghost var p, was := run.Planned(), Now();
      var evidence := Ids(board.records);
      ghost var idle := run.status.None? && run.active.None?;
      ghost var done: seq<Attempt> := [];
      var at := start;
      left := recordings;
      ConsumedNothing(recordings);
      BehindNothing(Fallback(p, parse, evidence, recordings, Ahead(p, was.state), was.state.spent, r));
      NothingConsumed(recordings, Ahead(p, was.state));
      while true
        invariant Valid() && run.Planned() == p
        invariant !idle ==> Now() == was && at == start
        invariant idle ==> run.status.None? && run.active.None? && run.attempts == was.state.attempts + done && report == was.report
        invariant idle ==> Fallback(p, parse, evidence, recordings, Ahead(p, was.state), was.state.spent, r)
                           == Behind(done, Fallback(p, parse, evidence, recordings, Ahead(p, run.Now()), run.Now().spent, r))
        invariant SameAhead(left, recordings, Ahead(p, run.Now()))
        invariant left == Consumed(recordings, Providers(done)) && (!idle ==> done == [])
        decreases |Ahead(p, run.Now())|
      {
        ghost var before := Now();
        ghost var ahead := Ahead(p, before.state);
        if idle {
          AdmitProviderAt(p, before, r, at);
          FallbackStops(p, parse, evidence, recordings, ahead, before.state.spent, r);
          BehindParts(done, Fallback(p, parse, evidence, recordings, ahead, before.state.spent, r));
        } else {
          NotIdle(p, before, r, at);
        }
        var admitted := AdmitProvider(r, at);
        if admitted.Err? { return Err(admitted.error), left; }
        if admitted.value.None? {
          return Ok(if run.status.Some? then run.status.value else Exhausted), left;
        }
        var kind := admitted.value.value;
        FallbackStep(p, parse, evidence, recordings, ahead, before.state.spent, r);
        TailAhead(p, before, left, recordings);
        ghost var admittedView := Now();
        var attempt, rest := TakeNext(left, kind);
        var accepted, failure, facts := Judge(parse, evidence, kind, attempt);
        if accepted.Some? {
          AnyReport(p, admittedView, accepted);
          report := accepted;
          SucceedProviderAt(p, Now(), facts, at);
          ConsumedNext(recordings, done, Attempt(kind, Accepted, facts));
          left := rest;
          result := SucceedProvider(kind, facts, at);
          return;
        }
        FailProviderAt(p, admittedView, failure, facts, at);
        var recorded := FailProvider(kind, failure, facts, at);
        ghost var record := Attempt(kind, Failed(failure), facts);
        SameProgress(p, admittedView.state, run.Now());
        StillAhead(rest, left, recordings, kind, ahead[1..]);
        BehindTwice(done, record, Fallback(p, parse, evidence, recordings, ahead[1..], run.Now().spent, r));
        ConsumedNext(recordings, done, record);
        done := done + [record];
        left := rest;
        at := if at == U64_MAX then at else at + 1;
      }
    }

    /** How a consumed recording ends: accepted with a report, or failed in some class. */
    static method Judge(parse: string -> Option<Report>, evidence: set<string>, kind: ProviderKind, attempt: Option<RecordedAttempt>)
      returns (accepted: Option<Report>, failure: FailureClass, facts: AttemptFacts)
      ensures Judged(parse, evidence, kind, attempt) == (Attempt(kind, if accepted.Some? then Accepted else Failed(failure), facts), accepted)
    {
      match attempt
      case Some(RecordedAttempt(Success(json), measured)) =>
        var parsed := parse(json);
        if parsed.Some? && ValidReport(parsed.value, evidence) {
          return parsed, MalformedResponse, measured;
        }
        return None, MalformedResponse, measured;
      case Some(RecordedAttempt(Failure(f), measured)) =>
        return None, f, measured;
      case None =>
        return None, TemporarilyUnavailable, NO_FACTS;
    }

    /** The first recording of the provider gives up its next attempt. */
    static method TakeNext(recordings: seq<RecordedProvider>, kind: ProviderKind) returns (attempt: Option<RecordedAttempt>, left: seq<RecordedProvider>)
      ensures attempt == Upcoming(recordings, kind) && left == Taken(recordings, kind)
    {
      left := recordings;
      var i := Find(recordings, kind);
      if i == |recordings| || recordings[i].attempts == [] { return None, left; }
      attempt := Some(recordings[i].attempts[0]);
      left := recordings[i := recordings[i].(attempts := recordings[i].attempts[1..])];
    }
  }

  /** The provider's next recording holds an acceptable report. */
  predicate Acceptable(parse: string -> Option<Report>, evidence: set<string>, recordings: seq<RecordedProvider>, kind: ProviderKind) {
    Judged(parse, evidence, kind, Upcoming(recordings, kind)).0.outcome.Accepted?
  }

  /** That is: its next recording is a success whose text reads as a report that cites only the evidence. */
  lemma AcceptableExactly(parse: string -> Option<Report>, evidence: set<string>, recordings: seq<RecordedProvider>, kind: ProviderKind)
    ensures Acceptable(parse, evidence, recordings, kind) <==>
              exists k, json, facts | 0 <= k < |recordings| ::
                && recordings[k].provider == kind && (forall j | 0 <= j < k :: recordings[j].provider != kind)
                && recordings[k].attempts != [] && recordings[k].attempts[0] == RecordedAttempt(Success(json), facts)
                && parse(json).Some? && Supported(parse(json).value, evidence)
  {
    hide Supported, ValidReport;
    var k := Find(recordings, kind);
    if k < |recordings| && recordings[k].attempts != [] && recordings[k].attempts[0].outcome.Success? {
      var report := parse(recordings[k].attempts[0].outcome.json);
      if report.Some? { ValidExactly(report.value, evidence); }
    }
  }

  /** What a provider that is not accepted is recorded with. */
  lemma RefusalExactly(parse: string -> Option<Report>, evidence: set<string>, kind: ProviderKind, a: Option<RecordedAttempt>)
    ensures var (attempt, report) := Judged(parse, evidence, kind, a);
            && (a.None? ==> attempt == Attempt(kind, Failed(TemporarilyUnavailable), NO_FACTS))
            && (a.Some? && a.value.outcome.Failure? ==> attempt == Attempt(kind, Failed(a.value.outcome.failure), a.value.facts))
            && (a.Some? && a.value.outcome.Success? ==>
                  var parsed := parse(a.value.outcome.json);
                  if parsed.Some? && Supported(parsed.value, evidence) then attempt == Attempt(kind, Accepted, a.value.facts) && report == parsed
                  else attempt == Attempt(kind, Failed(MalformedResponse), a.value.facts) && report.None?)
  {
    hide Supported, ValidReport;
    if a.Some? && a.value.outcome.Success? && parse(a.value.outcome.json).Some? {
      ValidExactly(parse(a.value.outcome.json).value, evidence);
    }
  }

  /**
   The run attempted a prefix of the candidates in order. It succeeded exactly when the prefix ends in
   the first candidate with an acceptable recording, and then kept that valid report; it is exhausted
   exactly when all candidates were attempted and none is acceptable.
   */
  ghost predicate TakesFirst(parse: string -> Option<Report>, evidence: set<string>, recordings: seq<RecordedProvider>, candidates: seq<ProviderKind>, e: Ending) {
    var n := |e.attempts|;
    && n <= |candidates| && Providers(e.attempts) == candidates[..n]
    && (forall i | 0 <= i < n :: e.attempts[i].outcome.Accepted? == Acceptable(parse, evidence, recordings, candidates[i]))
    && (forall i | 0 <= i < n - 1 :: !Acceptable(parse, evidence, recordings, candidates[i]))
    && (n > 0 && Acceptable(parse, evidence, recordings, candidates[n - 1]) <==> e.result.Ok? && e.result.value.Succeeded?)
    && (e.result.Ok? && e.result.value.Succeeded? ==>
          n > 0 && e.result.value.provider == candidates[n - 1] && e.report.Some? && Supported(e.report.value, evidence))
    && (e.result == Ok(Exhausted) <==> n == |candidates| && (n > 0 ==> !Acceptable(parse, evidence, recordings, candidates[n - 1])))
    && (e.report.Some? <==> e.result.Ok? && e.result.value.Succeeded?)
  }

  lemma TakesFirstPrepend(parse: string -> Option<Report>, evidence: set<string>, recordings: seq<RecordedProvider>, candidates: seq<ProviderKind>, a: Attempt, rest: Ending)
    requires candidates != [] && a.provider == candidates[0] && !a.outcome.Accepted? && !Acceptable(parse, evidence, recordings, candidates[0])
    requires TakesFirst(parse, evidence, recordings, candidates[1..], rest)
    ensures TakesFirst(parse, evidence, recordings, candidates, Behind([a], rest))
  {
    hide Acceptable, Supported;
    var e := Behind([a], rest);
    assert Providers(e.attempts) == [a.provider] + Providers(rest.attempts);
    forall i | 0 < i < |e.attempts| ensures e.attempts[i] == rest.attempts[i - 1] && candidates[i] == candidates[1..][i - 1] {
    }
  }

  /** The fallback run always takes the first acceptable candidate it reaches. */
  lemma {:induction false} FallbackTakesFirstAcceptable(p: Plan, parse: string -> Option<Report>, evidence: set<string>, recordings: seq<RecordedProvider>,
                                                        candidates: seq<ProviderKind>, spent: Totals, r: Reservation)
    ensures TakesFirst(parse, evidence, recordings, candidates, Fallback(p, parse, evidence, recordings, candidates, spent, r))
    decreases |candidates|
  {
    hide Upcoming, Supported, Exceeded, Added, Judged, Fallback, TakesFirst, Behind;
    FallbackStops(p, parse, evidence, recordings, candidates, spent, r);
    if candidates == [] || (candidates[0] != Deterministic && Exceeded(p.budget, spent, r).Some?) {
      TakesNone(parse, evidence, recordings, candidates, Fallback(p, parse, evidence, recordings, candidates, spent, r));
    } else {
      var kind := candidates[0];
      var (a, report) := Judged(parse, evidence, kind, Upcoming(recordings, kind));
      JudgedSound(parse, evidence, kind, Upcoming(recordings, kind));
      FallbackStep(p, parse, evidence, recordings, candidates, spent, r);
      if a.outcome.Accepted? {
        TakesOne(parse, evidence, recordings, candidates, a, report);
      } else {
        var next := if kind == Deterministic then spent else Added(spent, r);
        FallbackTakesFirstAcceptable(p, parse, evidence, recordings, candidates[1..], next, r);
        TakesFirstPrepend(parse, evidence, recordings, candidates, a, Fallback(p, parse, evidence, recordings, candidates[1..], next, r));
      }
    }
  }

  lemma TakesNone(parse: string -> Option<Report>, evidence: set<string>, recordings: seq<RecordedProvider>, candidates: seq<ProviderKind>, e: Ending)
    requires e.attempts == [] && e.report.None? && (if candidates == [] then e.result == Ok(Exhausted) else e.result.Err?)
    ensures TakesFirst(parse, evidence, recordings, candidates, e)
  {
  }

  lemma TakesOne(parse: string -> Option<Report>, evidence: set<string>, recordings: seq<RecordedProvider>, candidates: seq<ProviderKind>, a: Attempt, report: Option<Report>)
    requires candidates != [] && a.provider == candidates[0] && a.outcome.Accepted? && Acceptable(parse, evidence, recordings, candidates[0])
    requires report.Some? && Supported(report.value, evidence)
    ensures TakesFirst(parse, evidence, recordings, candidates, Ending(Ok(Succeeded(candidates[0])), [a], report))
  {
    hide Acceptable, Supported;
    assert Providers([a]) == [candidates[0]] == candidates[..1];
  }

  lemma JudgedSound(parse: string -> Option<Report>, evidence: set<string>, kind: ProviderKind, a: Option<RecordedAttempt>)
    ensures var (attempt, report) := Judged(parse, evidence, kind, a);
            && attempt.provider == kind && (attempt.outcome.Accepted? <==> report.Some?)
            && (report.Some? ==> Supported(report.value, evidence))
  {
    var report := Judged(parse, evidence, kind, a).1;
    if report.Some? { ValidExactly(report.value, evidence); }
  }
}
