/**
 The fallback state machine of one reasoning run (src/reasoning/coordinator.rs, with the provider
 order of src/reasoning/router.rs).
 */
module Coordinator {
  import opened Outcomes
  import opened Budget

  datatype ProviderKind = OpenAi | Gemini | DeepSeek | Deterministic

  datatype RunStatus = Succeeded(provider: ProviderKind) | Exhausted

  datatype FailureClass = AuthenticationRequired | RateLimited | TemporarilyUnavailable | MalformedResponse

  datatype AttemptOutcome = Accepted | Failed(failure: FailureClass)

  datatype AttemptFacts = AttemptFacts(elapsed: U64, tokens: Option<U64>, queries: U32, cost: Option<U64>)

  datatype Attempt = Attempt(provider: ProviderKind, outcome: AttemptOutcome, facts: AttemptFacts)

  datatype CoordinatorError = InvalidOrder | OverBudget(error: BudgetError) | NoActiveRun | WrongProvider

  const NO_FACTS: AttemptFacts := AttemptFacts(0, None, 0, None)

  /** What a run was configured with. */
  datatype Plan = Plan(order: seq<ProviderKind>, admitted: set<ProviderKind>, budget: Config)

  datatype State = State(spent: Totals, attempted: set<ProviderKind>, active: Option<ProviderKind>,
                         status: Option<RunStatus>, attempts: seq<Attempt>)

  const FRESH: State := State(NOTHING, {}, None, None, [])

  /** The admitted providers in their configured order. */
  function Candidates(order: seq<ProviderKind>, admitted: set<ProviderKind>): seq<ProviderKind> {
    if order == [] then [] else (if order[0] in admitted then [order[0]] else []) + Candidates(order[1..], admitted)
  }

  /** The first admitted provider of the order not attempted yet. */
  function Next(order: seq<ProviderKind>, admitted: set<ProviderKind>, attempted: set<ProviderKind>): Option<ProviderKind> {
    if order == [] then None
    else if order[0] !in attempted && order[0] in admitted then Some(order[0])
    else Next(order[1..], admitted, attempted)
  }

  function Elements(order: seq<ProviderKind>): set<ProviderKind> {
    set p | p in order
  }

  /** A plan `ReasoningRun::new` accepts: no duplicates, and something admitted. */
  predicate ValidPlan(p: Plan) {
    p.order != [] && |Elements(p.order)| == |p.order| && exists i :: 0 <= i < |p.order| && p.order[i] in p.admitted
  }

  function AdmitTx(p: Plan, s: State, r: Reservation): (Result<Option<ProviderKind>, CoordinatorError>, State) {
    if s.status.Some? then (Ok(None), s) else
    if s.active.Some? then (Err(NoActiveRun), s) else
    var next := Next(p.order, p.admitted, s.attempted);
    if next.None? then (Ok(None), s.(status := Some(Exhausted))) else
    var exceeded := Exceeded(p.budget, s.spent, r);
    if exceeded.Some? then (Err(OverBudget(exceeded.value)), s) else
    (Ok(next), s.(spent := Added(s.spent, r), attempted := s.attempted + {next.value}, active := next))
  }

  function NextProvider(p: Plan, s: State): Option<ProviderKind> {
    if s.status.Some? || s.active.Some? then None else Next(p.order, p.admitted, s.attempted)
  }

  function AdmitDeterministicTx(p: Plan, s: State): (Option<ProviderKind>, State) {
    if NextProvider(p, s) != Some(Deterministic) then (None, s)
    else (Some(Deterministic), s.(attempted := s.attempted + {Deterministic}, active := Some(Deterministic)))
  }

  const ONE_QUERY: Reservation := Reservation(0, 0, 1, 0)

  function QueryTx(p: Plan, s: State): (Result<(), CoordinatorError>, State) {
    var exceeded := Exceeded(p.budget, s.spent, ONE_QUERY);
    if exceeded.Some? then (Err(OverBudget(exceeded.value)), s) else (Ok(()), s.(spent := Added(s.spent, ONE_QUERY)))
  }

  /** A failure report takes the active provider away even when it names another one. */
  function FailTx(s: State, provider: ProviderKind, failure: FailureClass, facts: AttemptFacts): (Result<(), CoordinatorError>, State) {
    match s.active
    case None => (Err(NoActiveRun), s)
    case Some(active) =>
      if active == provider then (Ok(()), s.(active := None, attempts := s.attempts + [Attempt(provider, Failed(failure), facts)]))
      else (Err(WrongProvider), s.(active := None))
  }

  function SucceedTx(s: State, provider: ProviderKind, facts: AttemptFacts): (Result<RunStatus, CoordinatorError>, State) {
    match s.active
    case None => (Err(NoActiveRun), s)
    case Some(active) =>
      if active != provider then (Err(WrongProvider), s) else
      (Ok(Succeeded(provider)),
       s.(active := None, status := Some(Succeeded(provider)), attempts := s.attempts + [Attempt(provider, Accepted, facts)]))
  }

  class ReasoningRun {
    const order: seq<ProviderKind>
    const admitted: set<ProviderKind>
    const budget: BudgetState
    var attempted: set<ProviderKind>
    var active: Option<ProviderKind>
    var status: Option<RunStatus>
    var attempts: seq<Attempt>

    ghost function Planned(): Plan {
      Plan(order, admitted, budget.config)
    }

    ghost function Now(): State
      reads this, budget
    {
      State(budget.Spent(), attempted, active, status, attempts)
    }

    constructor (plan: Plan)
      ensures Planned() == plan && Now() == FRESH && fresh(budget)
    {
      order, admitted, attempted, active, status, attempts := plan.order, plan.admitted, {}, None, None, [];
      var state := new BudgetState(plan.budget);
      budget := state;
    }

    /** `ReasoningRun::new`: a run, unless the plan is invalid. */
    static method New(plan: Plan) returns (r: Result<ReasoningRun, CoordinatorError>)
      ensures r.Ok? <==> ValidPlan(plan)
      ensures r.Ok? ==> fresh(r.value) && fresh(r.value.budget) && r.value.Planned() == plan && r.value.Now() == FRESH
      ensures r.Err? ==> r.error == InvalidOrder
    {
      if plan.order == [] || |Elements(plan.order)| != |plan.order| { return Err(InvalidOrder); }
      var some := false;
      for i := 0 to |plan.order|
        invariant some <==> exists k :: 0 <= k < i && plan.order[k] in plan.admitted
      {
        some := some || plan.order[i] in plan.admitted;
      }
      if !some { return Err(InvalidOrder); }
      var run := new ReasoningRun(plan);
      return Ok(run);
    }

    method FindNext() returns (r: Option<ProviderKind>)
      ensures r == Next(order, admitted, attempted)
    {
      for i := 0 to |order|
        invariant Next(order, admitted, attempted) == Next(order[i..], admitted, attempted)
      {
        if order[i] !in attempted && order[i] in admitted { return Some(order[i]); }
      }
      return None;
    }

    method Admit(r: Reservation) returns (result: Result<Option<ProviderKind>, CoordinatorError>)
      modifies this, budget
      ensures (result, Now()) == AdmitTx(Planned(), old(Now()), r)
    {
      hide Next, Exceeded, Added;
      if status.Some? { return Ok(None); }
      if active.Some? { return Err(NoActiveRun); }
      var next := FindNext();
      if next.None? {
        status := Some(Exhausted);
        return Ok(None);
      }
      var reserved := budget.Reserve(r);
      if reserved.Err? { return Err(OverBudget(reserved.error)); }
      attempted := attempted + {next.value};
      active := next;
      return Ok(next);
    }

    method ReserveEvidenceQuery() returns (result: Result<(), CoordinatorError>)
      modifies budget
      ensures (result, Now()) == QueryTx(Planned(), old(Now()))
    {
      hide Exceeded, Added;
      var reserved := budget.Reserve(ONE_QUERY);
      return if reserved.Err? then Err(OverBudget(reserved.error)) else Ok(());
    }

    method FindNextProvider() returns (r: Option<ProviderKind>)
      ensures r == NextProvider(Planned(), Now())
    {
      if status.Some? || active.Some? { return None; }
      r := FindNext();
    }

    method AdmitDeterministic() returns (r: Option<ProviderKind>)
      modifies this
      ensures (r, Now()) == AdmitDeterministicTx(Planned(), old(Now()))
    {
      var next := FindNextProvider();
      if next != Some(Deterministic) { return None; }
      attempted := attempted + {Deterministic};
      active := Some(Deterministic);
      return active;
    }

    method FailWith(provider: ProviderKind, failure: FailureClass, facts: AttemptFacts) returns (r: Result<(), CoordinatorError>)
      modifies this
      ensures (r, Now()) == FailTx(old(Now()), provider, failure, facts)
    {
      var taken := active;
      active := None;
      if taken.None? { return Err(NoActiveRun); }
      if taken.value != provider { return Err(WrongProvider); }
      attempts := attempts + [Attempt(provider, Failed(failure), facts)];
      return Ok(());
    }

    method SucceedWith(provider: ProviderKind, facts: AttemptFacts) returns (r: Result<RunStatus, CoordinatorError>)
      modifies this
      ensures (r, Now()) == SucceedTx(old(Now()), provider, facts)
    {
      if active.None? { return Err(NoActiveRun); }
      if active.value != provider { return Err(WrongProvider); }
      attempts := attempts + [Attempt(provider, Accepted, facts)];
      active := None;
      status := Some(Succeeded(provider));
      return Ok(Succeeded(provider));
    }
  }

  // ---- Every run of the state machine ----

  datatype Op =
    | Admit(reservation: Reservation) | AdmitDeterministic | Query
    | Fail(provider: ProviderKind, failure: FailureClass, facts: AttemptFacts)
    | Succeed(provider: ProviderKind, facts: AttemptFacts)

  function Apply(p: Plan, s: State, op: Op): State {
    match op
    case Admit(r) => AdmitTx(p, s, r).1
    case AdmitDeterministic => AdmitDeterministicTx(p, s).1
    case Query => QueryTx(p, s).1
    case Fail(provider, failure, facts) => FailTx(s, provider, failure, facts).1
    case Succeed(provider, facts) => SucceedTx(s, provider, facts).1
  }

  function Run(p: Plan, s: State, ops: seq<Op>): State
    decreases |ops|
  {
    if ops == [] then s else Run(p, Apply(p, s, ops[0]), ops[1..])
  }

  /** A history is made of its steps, each taken where the one before ended. */
  lemma {:induction false} RunAppends(p: Plan, s: State, ops: seq<Op>, op: Op)
    ensures Run(p, s, []) == s
    ensures var (t, u) := (Run(p, s, ops), Run(p, s, ops + [op]));
            match op
            case Admit(r) => u == AdmitTx(p, t, r).1
            case AdmitDeterministic => u == AdmitDeterministicTx(p, t).1
            case Query => u == QueryTx(p, t).1
            case Fail(provider, failure, facts) => u == FailTx(t, provider, failure, facts).1
            case Succeed(provider, facts) => u == SucceedTx(t, provider, facts).1
    decreases |ops|
  {
    hide AdmitTx, AdmitDeterministicTx, QueryTx, FailTx, SucceedTx;
    if ops == [] {
      assert [op][1..] == [];
    } else {
      assert (ops + [op])[1..] == ops[1..] + [op];
      RunAppends(p, Apply(p, s, ops[0]), ops[1..], op);
    }
  }

  function Providers(attempts: seq<Attempt>): seq<ProviderKind> {
    seq(|attempts|, i requires 0 <= i < |attempts| => attempts[i].provider)
  }

  /** `a` is `b` with some elements left out. */
  predicate Subsequence<T(==)>(a: seq<T>, b: seq<T>)
    decreases |b|
  {
    a == [] || (b != [] && ((a[|a| - 1] == b[|b| - 1] && Subsequence(a[..|a| - 1], b[..|b| - 1])) || Subsequence(a, b[..|b| - 1])))
  }

  ghost predicate Distinct<T>(s: seq<T>) {
    forall i, j | 0 <= i < j < |s| :: s[i] != s[j]
  }

  /** The candidates a run has gone through before the active one. */
  function Past(p: Plan, s: State): seq<ProviderKind> {
    var c, k := Candidates(p.order, p.admitted), |s.attempted|;
    if k > |c| then c else c[..if s.active.Some? && k > 0 then k - 1 else k]
  }

  /** Attempted is a prefix of the candidates and its last element is the active one. */
  ghost predicate Progress(p: Plan, s: State) {
    var c, k := Candidates(p.order, p.admitted), |s.attempted|;
    && Distinct(c) && k <= |c| && s.attempted == Elements(c[..k])
    && (s.active.Some? ==> k > 0 && s.active.value == c[k - 1] && s.status.None?)
    && (s.status == Some(Exhausted) ==> k == |c|)
  }

  /** A success is the last record, and the run's status. */
  ghost predicate Terminal(s: State) {
    var n := |s.attempts|;
    && (forall i | 0 <= i < n - 1 :: s.attempts[i].outcome.Failed?)
    && (n > 0 && s.attempts[n - 1].outcome.Accepted? <==> s.status.Some? && s.status.value.Succeeded?)
    && (s.status.Some? && s.status.value.Succeeded? ==> n > 0 && s.status.value.provider == s.attempts[n - 1].provider)
  }

  /** The recorded attempts are a subsequence of the candidates behind the active one. */
  ghost predicate Recorded(p: Plan, s: State) {
    Subsequence(Providers(s.attempts), Past(p, s))
  }

  ghost predicate Inv(p: Plan, s: State) {
    Progress(p, s) && Terminal(s) && Recorded(p, s)
  }

  // ---- Sequence facts ----

  lemma SubsequenceAppend<T>(a: seq<T>, b: seq<T>, x: T)
    requires Subsequence(a, b)
    ensures Subsequence(a, b + [x]) && Subsequence(a + [x], b + [x])
  {
    assert (b + [x])[..|b|] == b && (a + [x])[..|a|] == a;
  }

  lemma {:induction false} SubsequenceMembers<T>(a: seq<T>, b: seq<T>)
    requires Subsequence(a, b)
    ensures forall x | x in a :: x in b
    ensures Distinct(b) ==> Distinct(a)
    decreases |b|
  {
    if a != [] {
      var init := b[..|b| - 1];
      if Subsequence(a, init) {
        SubsequenceMembers(a, init);
      } else {
        SubsequenceMembers(a[..|a| - 1], init);
        assert a == a[..|a| - 1] + [a[|a| - 1]];
        if Distinct(b) {
          assert b[|b| - 1] !in init;
        }
      }
    }
  }

  lemma SubsequencePrefix<T>(a: seq<T>, b: seq<T>, k: nat)
    requires k <= |b| && Subsequence(a, b[..k])
    ensures Subsequence(a, b)
    decreases |b| - k
  {
    if k < |b| {
      assert b[..k + 1] == b[..k] + [b[k]];
      SubsequenceAppend(a, b[..k], b[k]);
      SubsequencePrefix(a, b, k + 1);
    } else {
      assert b[..k] == b;
    }
  }

  lemma ElementsPrefix(c: seq<ProviderKind>, k: nat)
    requires k < |c|
    ensures Elements(c[..k + 1]) == Elements(c[..k]) + {c[k]}
  {
    assert c[..k + 1] == c[..k] + [c[k]];
  }

  lemma NotInPrefix(c: seq<ProviderKind>, k: nat)
    requires Distinct(c) && k < |c|
    ensures c[k] !in Elements(c[..k])
  {
    forall i | 0 <= i < k ensures c[..k][i] != c[k] {
    }
  }

  lemma {:induction false} PrefixSize(c: seq<ProviderKind>, k: nat)
    requires Distinct(c) && k <= |c|
    ensures |Elements(c[..k])| == k
  {
    if k == 0 {
      assert Elements(c[..0]) == {};
    } else {
      hide Distinct, Elements;
      ElementsPrefix(c, k - 1);
      PrefixSize(c, k - 1);
      NotInPrefix(c, k - 1);
    }
  }

  /** As many elements as positions means no duplicates. */
  lemma {:induction false} SizeMeansDistinct(s: seq<ProviderKind>)
    ensures |Elements(s)| <= |s| && (|Elements(s)| == |s| ==> Distinct(s))
  {
    if s != [] {
      var rest := s[1..];
      SizeMeansDistinct(rest);
      assert s == [s[0]] + rest;
      assert Elements(s) == {s[0]} + Elements(rest);
      if |Elements(s)| == |s| {
        assert s[0] !in Elements(rest);
        forall i, j | 0 <= i < j < |s| ensures s[i] != s[j] {
          assert s[j] == rest[j - 1] && (i > 0 ==> s[i] == rest[i - 1]);
        }
      }
    }
  }

  lemma {:induction false} CandidatesDistinct(order: seq<ProviderKind>, admitted: set<ProviderKind>)
    requires Distinct(order)
    ensures Distinct(Candidates(order, admitted))
    ensures forall x :: x in Candidates(order, admitted) <==> x in order && x in admitted
  {
    if order != [] {
      CandidatesDistinct(order[1..], admitted);
      assert order == [order[0]] + order[1..];
    }
  }

  lemma {:induction false} NextAmongCandidates(order: seq<ProviderKind>, admitted: set<ProviderKind>, attempted: set<ProviderKind>, k: nat)
    requires var c := Candidates(order, admitted); k <= |c| && (forall i | 0 <= i < k :: c[i] in attempted) && (k < |c| ==> c[k] !in attempted)
    ensures var c := Candidates(order, admitted); Next(order, admitted, attempted) == if k < |c| then Some(c[k]) else None
  {
    var c := Candidates(order, admitted);
    if order != [] {
      var rest := Candidates(order[1..], admitted);
      if order[0] in admitted {
        assert c == [order[0]] + rest;
        if k > 0 {
          assert c[0] in attempted && (k < |c| ==> c[k] == rest[k - 1]);
          assert forall i | 0 <= i < k - 1 :: rest[i] == c[i + 1];
          NextAmongCandidates(order[1..], admitted, attempted, k - 1);
        }
      } else {
        assert c == rest;
        NextAmongCandidates(order[1..], admitted, attempted, k);
      }
    }
  }

  /** The next provider is the first candidate beyond those attempted. */
  lemma NextIsCandidate(p: Plan, s: State)
    requires Inv(p, s)
    ensures var c, k := Candidates(p.order, p.admitted), |s.attempted|;
            Next(p.order, p.admitted, s.attempted) == if k < |c| then Some(c[k]) else None
  {
    hide Subsequence, Candidates;
    var c, k := Candidates(p.order, p.admitted), |s.attempted|;
    assert forall i | 0 <= i < k :: c[i] in c[..k];
    assert k < |c| ==> c[k] !in c[..k];
    NextAmongCandidates(p.order, p.admitted, s.attempted, k);
  }

  // ---- The invariant ----

  lemma FreshInv(p: Plan)
    requires ValidPlan(p)
    ensures Inv(p, FRESH)
  {
    SizeMeansDistinct(p.order);
    CandidatesDistinct(p.order, p.admitted);
    assert Elements(Candidates(p.order, p.admitted)[..0]) == {};
  }

  /** Taking the next candidate on. */
  lemma AdvanceKeepsInv(p: Plan, s: State, spent: Totals)
    requires Inv(p, s) && s.status.None? && s.active.None? && |s.attempted| < |Candidates(p.order, p.admitted)|
    ensures var next := Candidates(p.order, p.admitted)[|s.attempted|];
            Inv(p, s.(spent := spent, attempted := s.attempted + {next}, active := Some(next)))
  {
    hide Candidates, Subsequence, Elements, Distinct;
    var c, k := Candidates(p.order, p.admitted), |s.attempted|;
    ElementsPrefix(c, k);
    PrefixSize(c, k + 1);
  }

  /** Recording the active provider's attempt, accepted or failed. */
  lemma RecordKeepsInv(p: Plan, s: State, a: Attempt)
    requires Inv(p, s) && s.active == Some(a.provider)
    requires s.status.None?
    ensures var t := s.(active := None, attempts := s.attempts + [a],
                        status := if a.outcome.Accepted? then Some(Succeeded(a.provider)) else None);
            Inv(p, t)
  {
    hide *;
    var t := s.(active := None, attempts := s.attempts + [a], status := if a.outcome.Accepted? then Some(Succeeded(a.provider)) else None);
    InvParts(p, s);
    RecordProgress(p, s, t);
    RecordTerminal(s, t, a);
    RecordRecorded(p, s, t, a);
    InvIs(p, t);
  }

  lemma InvParts(p: Plan, s: State)
    requires Inv(p, s)
    ensures Progress(p, s) && Terminal(s) && Recorded(p, s)
  {
  }

  lemma InvIs(p: Plan, s: State)
    requires Progress(p, s) && Terminal(s) && Recorded(p, s)
    ensures Inv(p, s)
  {
  }

  lemma RecordProgress(p: Plan, s: State, t: State)
    requires Progress(p, s) && t.attempted == s.attempted && t.active.None? && t.status != Some(Exhausted)
    ensures Progress(p, t)
  {
    hide Candidates, Elements, Distinct;
  }

  lemma RecordTerminal(s: State, t: State, a: Attempt)
    requires Terminal(s) && s.status.None? && t.attempts == s.attempts + [a]
    requires t.status == if a.outcome.Accepted? then Some(Succeeded(a.provider)) else None
    ensures Terminal(t)
  {
    assert forall i | 0 <= i < |s.attempts| :: t.attempts[i] == s.attempts[i];
  }

  lemma RecordRecorded(p: Plan, s: State, t: State, a: Attempt)
    requires Progress(p, s) && Recorded(p, s) && s.active == Some(a.provider)
    requires t.attempted == s.attempted && t.active.None? && t.attempts == s.attempts + [a]
    ensures Recorded(p, t)
  {
    PastGrows(p, s, t);
    hide Candidates, Subsequence, Past, Progress;
    SubsequenceAppend(Providers(s.attempts), Past(p, s), a.provider);
    assert Providers(t.attempts) == Providers(s.attempts) + [a.provider];
  }

  /** Taking the active provider away puts it behind. */
  lemma PastGrows(p: Plan, s: State, t: State)
    requires Progress(p, s) && s.active.Some? && t.active.None? && t.attempted == s.attempted
    ensures Past(p, t) == Past(p, s) + [s.active.value]
  {
    hide Candidates, Elements, Distinct;
    var c, k := Candidates(p.order, p.admitted), |s.attempted|;
    assert c[..k] == c[..k - 1] + [c[k - 1]];
  }

  lemma ApplyKeepsInv(p: Plan, s: State, op: Op)
    requires Inv(p, s)
    ensures Inv(p, Apply(p, s, op))
  {
    hide *;
    match op
    case Admit(r) => AdmitKeepsInv(p, s, r);
    case AdmitDeterministic => DeterministicKeepsInv(p, s);
    case Query => QueryKeepsInv(p, s);
    case Fail(provider, failure, facts) => FailKeepsInv(p, s, provider, failure, facts);
    case Succeed(provider, facts) => SucceedKeepsInv(p, s, provider, facts);
  }

  lemma AdmitKeepsInv(p: Plan, s: State, r: Reservation)
    requires Inv(p, s)
    ensures Inv(p, Apply(p, s, Admit(r)))
  {
    hide Candidates, Inv, Next, Exceeded, Added;
    NextIsCandidate(p, s);
    if s.status.None? && s.active.None? {
      if |s.attempted| < |Candidates(p.order, p.admitted)| {
        AdvanceKeepsInv(p, s, Added(s.spent, r));
      } else {
        ExhaustKeepsInv(p, s);
      }
    }
  }

  lemma ExhaustKeepsInv(p: Plan, s: State)
    requires Inv(p, s) && s.status.None? && s.active.None? && |s.attempted| >= |Candidates(p.order, p.admitted)|
    ensures Inv(p, s.(status := Some(Exhausted)))
  {
    hide Candidates, Subsequence, Elements, Distinct;
  }

  lemma DeterministicKeepsInv(p: Plan, s: State)
    requires Inv(p, s)
    ensures Inv(p, Apply(p, s, AdmitDeterministic))
  {
    hide Candidates, Next, Inv;
    NextIsCandidate(p, s);
    if NextProvider(p, s) == Some(Deterministic) {
      AdvanceKeepsInv(p, s, s.spent);
    }
  }

  lemma QueryKeepsInv(p: Plan, s: State)
    requires Inv(p, s)
    ensures Inv(p, Apply(p, s, Query))
  {
    hide Candidates, Subsequence, Exceeded, Added;
  }

  lemma FailKeepsInv(p: Plan, s: State, provider: ProviderKind, failure: FailureClass, facts: AttemptFacts)
    requires Inv(p, s)
    ensures Inv(p, Apply(p, s, Fail(provider, failure, facts)))
  {
    hide Candidates, Subsequence, Inv, Past, Progress, Terminal, Recorded;
    var t := s.(active := None);
    InvParts(p, s);
    if s.active == Some(provider) {
      ActiveMeansRunning(p, s);
      RecordKeepsInv(p, s, Attempt(provider, Failed(failure), facts));
    } else if s.active.Some? {
      TakenKeepsInv(p, s);
    }
  }

  lemma TakenKeepsInv(p: Plan, s: State)
    requires Inv(p, s) && s.active.Some?
    ensures Inv(p, s.(active := None))
  {
    hide Candidates, Subsequence, Past;
    PastGrows(p, s, s.(active := None));
    SubsequenceAppend(Providers(s.attempts), Past(p, s), s.active.value);
  }

  lemma SucceedKeepsInv(p: Plan, s: State, provider: ProviderKind, facts: AttemptFacts)
    requires Inv(p, s)
    ensures Inv(p, Apply(p, s, Succeed(provider, facts)))
  {
    hide Candidates, Subsequence, Inv;
    if s.active == Some(provider) {
      ActiveMeansRunning(p, s);
      RecordKeepsInv(p, s, Attempt(provider, Accepted, facts));
    }
  }

  lemma ActiveMeansRunning(p: Plan, s: State)
    requires Inv(p, s) && s.active.Some?
    ensures s.status.None?
  {
  }

  lemma {:induction false} RunKeepsInv(p: Plan, s: State, ops: seq<Op>)
    requires Inv(p, s)
    ensures Inv(p, Run(p, s, ops))
    decreases |ops|
  {
    hide Inv, Apply;
    if ops != [] {
      ApplyKeepsInv(p, s, ops[0]);
      RunKeepsInv(p, Apply(p, s, ops[0]), ops[1..]);
    }
  }

  /**
   After any calls in any order, misplaced ones included: the recorded attempts are a duplicate-free
   subsequence of the admitted providers in order, at most one of them succeeded, it is the last,
   and the run succeeded exactly if there is one.
   */
  lemma AttemptsInOrder(p: Plan, ops: seq<Op>)
    requires ValidPlan(p)
    ensures var s := Run(p, FRESH, ops);
            && Subsequence(Providers(s.attempts), Candidates(p.order, p.admitted)) && Distinct(Providers(s.attempts))
            && (forall i | 0 <= i < |s.attempts| && s.attempts[i].outcome.Accepted? ::
                  i == |s.attempts| - 1 && s.status == Some(Succeeded(s.attempts[i].provider)))
            && (s.status.Some? && s.status.value.Succeeded? ==> s.attempts != [] && s.attempts[|s.attempts| - 1].outcome.Accepted?)
  {
    hide Run, Candidates, Subsequence;
    FreshInv(p);
    RunKeepsInv(p, FRESH, ops);
    var s, c := Run(p, FRESH, ops), Candidates(p.order, p.admitted);
    var k := |Past(p, s)|;
    assert Past(p, s) == c[..k];
    SubsequencePrefix(Providers(s.attempts), c, k);
    SubsequenceMembers(Providers(s.attempts), c);
  }

  lemma {:induction false} EndedStays(p: Plan, s: State, ops: seq<Op>)
    requires s.status.Some? && s.active.None?
    ensures Run(p, s, ops) == s.(spent := Run(p, s, ops).spent)
    decreases |ops|
  {
    hide Next, Exceeded, Added;
    if ops != [] {
      EndedStays(p, Apply(p, s, ops[0]), ops[1..]);
    }
  }

  /** A terminal status is final: nothing later changes it, the attempts, or what was attempted. */
  lemma {:induction false} StatusSticky(p: Plan, s: State, ops: seq<Op>)
    requires Inv(p, s) && s.status.Some?
    ensures Run(p, s, ops) == s.(spent := Run(p, s, ops).spent)
  {
    hide Run, Recorded, Terminal, Candidates;
    EndedStays(p, s, ops);
  }

  // ---- The budget of a run ----

  /** What a call reserves, if it is granted. */
  function Granted(p: Plan, s: State, op: Op): seq<Reservation> {
    match op
    case Admit(r) => if AdmitTx(p, s, r).0.Ok? && AdmitTx(p, s, r).0.value.Some? then [r] else []
    case Query => if QueryTx(p, s).0.Ok? then [ONE_QUERY] else []
    case _ => []
  }

  function AllGranted(p: Plan, s: State, ops: seq<Op>): seq<Reservation>
    decreases |ops|
  {
    if ops == [] then [] else Granted(p, s, ops[0]) + AllGranted(p, Apply(p, s, ops[0]), ops[1..])
  }

  lemma {:induction false} TotalConcat(a: seq<Reservation>, b: seq<Reservation>)
    ensures var x, y, z := Total(a), Total(b), Total(a + b);
            z == Sums(x.calls + y.calls, x.tokens + y.tokens, x.queries + y.queries, x.cost + y.cost)
  {
    if a == [] {
      assert a + b == b;
    } else {
      TotalConcat(a[1..], b);
      assert (a + b)[1..] == a[1..] + b;
    }
  }

  lemma StepSpends(p: Plan, s: State, op: Op)
    requires Bounded(p.budget) && Within(p.budget, s.spent)
    ensures var t, g := Apply(p, s, op), Total(Granted(p, s, op));
            && Within(p.budget, t.spent)
            && t.spent.calls == s.spent.calls + g.calls && t.spent.tokens == s.spent.tokens + g.tokens
            && t.spent.queries == s.spent.queries + g.queries && t.spent.cost == s.spent.cost + g.cost
  {
    hide Next, Exceeded, Added, Bounded, Within;
    var r := if op.Admit? then op.reservation else ONE_QUERY;
    AcceptedExactly(p.budget, s.spent, r);
    if Exceeded(p.budget, s.spent, r).None? {
      AddsExactly(p.budget, s.spent, r);
      BoundedCeilings(p.budget);
    }
    assert Total([r]) == Sums(r.calls, r.tokens, r.queries, r.cost) by { assert [r][1..] == []; }
  }

  lemma BoundedCeilings(c: Config)
    requires Bounded(c)
    ensures c.maxCalls < U32_MAX && c.maxTokens < U64_MAX && c.maxQueries < U32_MAX && c.maxCost.Some? && c.maxCost.value < U64_MAX
  {
  }

  /** Under bounded ceilings a run's counters are the plain sums of what it was granted, within every ceiling. */
  lemma {:induction false} RunSpendsWhatItWasGranted(p: Plan, s: State, ops: seq<Op>)
    requires Bounded(p.budget) && Within(p.budget, s.spent)
    ensures var t, g := Run(p, s, ops), Total(AllGranted(p, s, ops));
            && Within(p.budget, t.spent)
            && t.spent.calls == s.spent.calls + g.calls && t.spent.tokens == s.spent.tokens + g.tokens
            && t.spent.queries == s.spent.queries + g.queries && t.spent.cost == s.spent.cost + g.cost
    decreases |ops|
  {
    hide Apply, Granted, Bounded, Within;
    if ops != [] {
      StepSpends(p, s, ops[0]);
      RunSpendsWhatItWasGranted(p, Apply(p, s, ops[0]), ops[1..]);
      TotalConcat(Granted(p, s, ops[0]), AllGranted(p, Apply(p, s, ops[0]), ops[1..]));
    }
  }

  // ---- What each call answers and changes, exactly ----

  lemma {:induction false} CandidatesAppend(order: seq<ProviderKind>, admitted: set<ProviderKind>, x: ProviderKind)
    ensures Candidates(order + [x], admitted) == Candidates(order, admitted) + if x in admitted then [x] else []
    decreases |order|
  {
    if order == [] {
      assert [x][1..] == [];
      assert Candidates([x], admitted) == (if x in admitted then [x] else []) + Candidates([x][1..], admitted);
    } else {
      CandidatesAppend(order[1..], admitted, x);
      assert (order + [x])[1..] == order[1..] + [x];
    }
  }

  /** The candidates are the admitted providers of the order, each in its place. */
  lemma {:induction false} CandidatesInOrder(order: seq<ProviderKind>, admitted: set<ProviderKind>)
    ensures Subsequence(Candidates(order, admitted), order)
    ensures forall x :: x in Candidates(order, admitted) <==> x in order && x in admitted
    decreases |order|
  {
    hide Candidates, Subsequence;
    if order == [] {
      NoCandidates(admitted);
    } else {
      var (init, x) := (order[..|order| - 1], order[|order| - 1]);
      CandidatesInOrder(init, admitted);
      CandidatesAppend(init, admitted, x);
      SubsequenceAppend(Candidates(init, admitted), init, x);
      assert order == init + [x] && Candidates(init, admitted) + [] == Candidates(init, admitted);
    }
  }

  lemma NoCandidates(admitted: set<ProviderKind>)
    ensures Candidates([], admitted) == [] && Subsequence<ProviderKind>([], [])
  {
  }

  /**
   An admission, in every state a run reaches: an ended run has nobody left and a busy one refuses; with
   no candidate left the run is exhausted; and the next candidate is activated exactly when the
   reservation fits, which is then spent.
   */
  lemma AdmitsExactly(p: Plan, s: State, r: Reservation)
    requires Inv(p, s)
    ensures var (result, t) := AdmitTx(p, s, r);
            var c, k := Candidates(p.order, p.admitted), |s.attempted|;
            if s.status.Some? then result == Ok(None) && t == s
            else if s.active.Some? then result == Err(NoActiveRun) && t == s
            else if k == |c| then result == Ok(None) && t == s.(status := Some(Exhausted))
            else match Exceeded(p.budget, s.spent, r)
              case Some(e) => result == Err(OverBudget(e)) && t == s
              case None => result == Ok(Some(c[k]))
                           && t == s.(spent := Added(s.spent, r), attempted := s.attempted + {c[k]}, active := Some(c[k]))
  {
    hide Next, Candidates, Subsequence, Exceeded, Added;
    NextIsCandidate(p, s);
  }

  /** The baseline is admitted, at no cost, exactly while it is the next candidate of an idle run. */
  lemma BaselineExactly(p: Plan, s: State)
    requires Inv(p, s)
    ensures var (admitted, t) := AdmitDeterministicTx(p, s);
            var c, k := Candidates(p.order, p.admitted), |s.attempted|;
            if s.status.None? && s.active.None? && k < |c| && c[k] == Deterministic
            then admitted == Some(Deterministic) && t == s.(attempted := s.attempted + {Deterministic}, active := Some(Deterministic))
            else admitted == None && t == s
  {
    hide Next, Candidates, Subsequence;
    NextIsCandidate(p, s);
  }

  /**
   Reports: only the active provider's is recorded, with its facts; a success ends the run. Another
   provider's failure report takes the active provider away unrecorded, its success report does nothing.
   */
  lemma ReportsExactly(s: State, provider: ProviderKind, failure: FailureClass, facts: AttemptFacts)
    ensures var (failed, t) := FailTx(s, provider, failure, facts);
            var (succeeded, u) := SucceedTx(s, provider, facts);
            match s.active
            case None => failed == Err(NoActiveRun) && succeeded == Err(NoActiveRun) && t == u == s
            case Some(active) =>
              && (failed.Ok? <==> active == provider) && (failed.Err? ==> failed.error == WrongProvider)
              && t == State(s.spent, s.attempted, None, s.status,
                            if active == provider then s.attempts + [Attempt(provider, Failed(failure), facts)] else s.attempts)
              && succeeded == (if active == provider then Ok(Succeeded(provider)) else Err(WrongProvider))
              && u == (if active == provider
                       then State(s.spent, s.attempted, None, Some(Succeeded(provider)), s.attempts + [Attempt(provider, Accepted, facts)])
                       else s)
  {
  }

  /** A plan is accepted if and only if its order repeats nobody and somebody in it is admitted. */
  lemma PlanExactly(p: Plan)
    ensures ValidPlan(p) <==> Distinct(p.order) && exists provider :: provider in p.order && provider in p.admitted
  {
    SizeMeansDistinct(p.order);
    if Distinct(p.order) {
      PrefixSize(p.order, |p.order|);
      assert p.order[..|p.order|] == p.order;
    }
    if provider :| provider in p.order && provider in p.admitted {
      var i :| 0 <= i < |p.order| && p.order[i] == provider;
    }
  }
}
