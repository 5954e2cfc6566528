/**
 The live investigation (src/reasoning/investigation.rs): nested loops over providers and their tool
 calls. Providers, tools, clocks and the journal are an arbitrary environment, asked anew at every
 tick.
 */
module Investigation {
  import opened Outcomes
  import opened Budget
  import opened Coordinator
  import opened Evidence
  import opened Runtime
  import T = ToolLoop
  import Text

  const MAX_PROMPT_BYTES: nat := 32 * 1024

  /** What a provider turn yields. */
  datatype LiveTurn =
    | Final(report: Report, tokens: Option<U64>)
    | ToolCalls(calls: seq<T.ToolCall>, tokens: Option<U64>)
    | TurnFailed(failure: FailureClass)

  /** A record of the tools' board, copied to the runtime's. */
  datatype Submission = Submission(query: string, payload: Payload)

  /** What surrounds one tool call: the checkpoint's outcome, the deadline, and the backend's result. */
  datatype ToolAnswer = ToolAnswer(recorded: bool, timeLeft: bool, class_: T.ToolResultClass, evidence: Option<Submission>, detail: string)

  datatype Environment = Environment(
    turn: (ProviderKind, nat) -> LiveTurn,
    timeLeft: nat -> bool,
    tool: nat -> ToolAnswer,
    persists: nat -> bool,
    clock: nat -> U64)

  /** The deterministic provider reports no evidence; without time left no provider answers. */
  function ProviderTurn(env: Environment, kind: ProviderKind, tick: nat): LiveTurn {
    if !env.timeLeft(tick) then TurnFailed(TemporarilyUnavailable)
    else if kind == Deterministic then Final(Report("Deterministic enrichment; operator review is required before action.", []), None)
    else env.turn(kind, tick)
  }

  /** A response with which a provider succeeds: a final report that fits its prompt and cites the board. */
  ghost predicate AcceptableTurn(turn: LiveTurn, promptBytes: nat, records: seq<Record>) {
    turn.Final? && promptBytes <= 32 * 1024 && Supported(turn.report, Ids(records))
  }

  /** A response whose calls the loop executes. */
  predicate AsksTools(turn: LiveTurn) {
    turn.ToolCalls? && 0 < |turn.calls| <= 8
  }

  /** How the responses are told apart: one to eight calls are executed, and what else is not a report has its own failure or is malformed. */
  lemma ResponsesExactly(turn: LiveTurn)
    ensures AsksTools(turn) <==> exists calls, tokens :: turn == ToolCalls(calls, tokens) && 1 <= |calls| <= 8
    ensures match turn
            case TurnFailed(failure) => FailureOf(turn) == failure
            case _ => FailureOf(turn) == MalformedResponse
  {
    if AsksTools(turn) { assert turn == ToolCalls(turn.calls, turn.tokens); }
  }

  /** How a provider fails whose last response is not acceptable. */
  function FailureOf(turn: LiveTurn): FailureClass {
    if turn.TurnFailed? then turn.failure else MalformedResponse
  }

  /** What a provider's turn is: the environment's answer if there is time, but never for the deterministic one. */
  lemma TurnExactly(env: Environment, kind: ProviderKind, tick: nat)
    ensures !env.timeLeft(tick) ==> ProviderTurn(env, kind, tick) == TurnFailed(TemporarilyUnavailable)
    ensures env.timeLeft(tick) && kind != Deterministic ==> ProviderTurn(env, kind, tick) == env.turn(kind, tick)
    ensures env.timeLeft(tick) && kind == Deterministic ==>
              ProviderTurn(env, kind, tick).Final? && ProviderTurn(env, kind, tick).report.evidence == []
  {
  }

  /** The time a provider's responses took, by the ticks they came at. */
  ghost function TotalTime(env: Environment, ticks: seq<nat>): nat {
    if ticks == [] then 0 else TotalTime(env, ticks[..|ticks| - 1]) + env.clock(ticks[|ticks| - 1])
  }

  /** The tokens its responses reported, if any did. */
  ghost function TotalTokens(env: Environment, kind: ProviderKind, ticks: seq<nat>): Option<nat> {
    if ticks == [] then None else
    Plus(TotalTokens(env, kind, ticks[..|ticks| - 1]), Reported(ProviderTurn(env, kind, ticks[|ticks| - 1])))
  }

  ghost function Reported(turn: LiveTurn): Option<U64> {
    if turn.TurnFailed? then None else turn.tokens
  }

  ghost function Plus(sofar: Option<nat>, more: Option<U64>): Option<nat> {
    if more.None? then sofar else Some(more.value + if sofar.Some? then sofar.value else 0)
  }

  /** The calls its responses asked for. */
  ghost function TotalCalls(env: Environment, kind: ProviderKind, ticks: seq<nat>): nat {
    if ticks == [] then 0 else
    var turn := ProviderTurn(env, kind, ticks[|ticks| - 1]);
    TotalCalls(env, kind, ticks[..|ticks| - 1]) + if turn.ToolCalls? then |turn.calls| else 0
  }

  /** The facts of an attempt with these responses: sums capped at 64 bits, and the calls answered before the last one, in 32. */
  ghost predicate Tells(facts: AttemptFacts, env: Environment, kind: ProviderKind, ticks: seq<nat>) {
    && ticks != [] && facts.cost.None?
    && facts.elapsed == Capped(TotalTime(env, ticks))
    && facts.queries == TotalCalls(env, kind, ticks[..|ticks| - 1]) % 0x1_0000_0000
    && var used := TotalTokens(env, kind, ticks);
       facts.tokens == if used.None? then None else Some(Capped(used.value))
  }

  ghost function Capped(n: nat): U64 {
    if n <= 0xFFFF_FFFF_FFFF_FFFF then n else 0xFFFF_FFFF_FFFF_FFFF
  }

  lemma ResponseAdds(env: Environment, kind: ProviderKind, ticks: seq<nat>, tick: nat)
    ensures TotalTime(env, ticks + [tick]) == TotalTime(env, ticks) + env.clock(tick)
    ensures TotalCalls(env, kind, ticks + [tick])
            == TotalCalls(env, kind, ticks) + if ProviderTurn(env, kind, tick).ToolCalls? then |ProviderTurn(env, kind, tick).calls| else 0
    ensures TotalTokens(env, kind, ticks + [tick]) == Plus(TotalTokens(env, kind, ticks), Reported(ProviderTurn(env, kind, tick)))
    ensures (ticks + [tick])[..|ticks + [tick]| - 1] == ticks
  {
    hide ProviderTurn, Plus;
    assert (ticks + [tick])[..|ticks|] == ticks;
  }

  lemma CappedSums(a: nat, b: U64)
    ensures SaturatingSum(Capped(a), b) == Capped(a + b)
  {
  }

  // ---- One tool call ----

  /** What a tool call works on: the loop, the coordinator, the durably requested IDs, the board, and the backend executions so far. */
  datatype World = World(toolLoop: T.LoopState, state: State, requested: set<string>, records: seq<Record>, executions: nat)

  const ALREADY: string := "tool call already has a durable checkpoint"
  const NO_QUERIES: string := "incident evidence-query budget exhausted"
  const NO_TIME: string := "incident deadline exhausted before context query"

  function WithResult(w: World, r: T.ToolResult): World {
    w.(toolLoop := w.toolLoop.(results := w.toolLoop.results + [r]))
  }

  function Refuse(w: World, call: T.ToolCall, class_: T.ToolResultClass, detail: string): (Option<T.ToolResult>, World) {
    var r := T.ToolResult(call.callId, class_, None, detail);
    (Some(r), WithResult(w, r))
  }

  /** `execute_model_tool`; no result means the call returned an error. */
  function Executed(p: Plan, maxTurns: nat, w: World, call: T.ToolCall, a: ToolAnswer): (Option<T.ToolResult>, World) {
    if call.callId in w.requested then Refuse(w, call, T.Exhausted, ALREADY) else
    var (refused, toolLoop) := T.AdmitTx(maxTurns, w.toolLoop, call);
    if refused.Some? then Refuse(w, call, if refused.value.TurnLimit? then T.Exhausted else T.Denied, T.Message(refused.value)) else
    var admitted := w.(toolLoop := toolLoop);
    var (query, state) := QueryTx(p, w.state);
    if query.Err? then Refuse(admitted, call, T.Exhausted, NO_QUERIES) else
    var reserved := admitted.(state := state);
    Performed(reserved, call, a)
  }

  /** The checkpoint, the deadline, the backend, and the copy of its record to the runtime's board. */
  function Performed(w: World, call: T.ToolCall, a: ToolAnswer): (Option<T.ToolResult>, World) {
    if !a.recorded then (None, w) else
    var requested := w.(requested := w.requested + {call.callId});
    if !a.timeLeft then Refuse(requested, call, T.Exhausted, NO_TIME) else
    var executed := requested.(executions := w.executions + 1);
    match a.evidence
    case None =>
      var r := T.ToolResult(call.callId, a.class_, None, a.detail);
      (Some(r), WithResult(executed, r))
    case Some(submitted) =>
      match CommitTx(w.records, submitted.query, submitted.payload)
      case Err(_) => (None, executed)
      case Ok((records, id)) =>
        var r := T.ToolResult(call.callId, a.class_, Some(id), a.detail);
        (Some(r), WithResult(executed.(records := records), r))
  }

  /** The call was answered with a result of this class that cites nothing; everything else is as given. */
  ghost predicate Answers(r: Option<T.ToolResult>, t: World, call: T.ToolCall, class_: T.ToolResultClass, detail: string,
                          toolLoop: T.LoopState, state: State, requested: set<string>, records: seq<Record>, executions: nat) {
    && r == Some(T.ToolResult(call.callId, class_, None, detail))
    && t == World(T.LoopState(toolLoop.turnsUsed, toolLoop.results + [r.value], toolLoop.seen), state, requested, records, executions)
  }

  /**
   A call is refused, with nothing used, if its identifier is durable already or the loop refuses it: a
   lack of turns exhausts it, anything else is denied. Without a query left it has used its turn only.
   */
  lemma RefusedExactly(p: Plan, maxTurns: nat, w: World, call: T.ToolCall, a: ToolAnswer)
    ensures var (r, t) := Executed(p, maxTurns, w, call, a);
            var (refused, toolLoop) := T.AdmitTx(maxTurns, w.toolLoop, call);
            && (call.callId in w.requested ==>
                  Answers(r, t, call, T.Exhausted, "tool call already has a durable checkpoint",
                          w.toolLoop, w.state, w.requested, w.records, w.executions))
            && (call.callId !in w.requested && refused.Some? ==>
                  Answers(r, t, call, if refused == Some(T.TurnLimit) then T.Exhausted else T.Denied, T.Message(refused.value),
                          w.toolLoop, w.state, w.requested, w.records, w.executions))
            && (call.callId !in w.requested && refused.None? && Exceeded(p.budget, w.state.spent, Reservation(0, 0, 1, 0)).Some? ==>
                  Answers(r, t, call, T.Exhausted, "incident evidence-query budget exhausted",
                          toolLoop, w.state, w.requested, w.records, w.executions))
  {
    hide T.AdmitTx, T.Message, Exceeded, Performed;
  }

  /**
   A call that is not refused has used a turn and a query. Unless its checkpoint fails it is durable;
   out of time it ends there; and otherwise the backend ran once, and its evidence is on the board.
   */
  lemma PerformedExactly(p: Plan, maxTurns: nat, w: World, call: T.ToolCall, a: ToolAnswer)
    requires call.callId !in w.requested && T.AdmitTx(maxTurns, w.toolLoop, call).0.None?
    requires Exceeded(p.budget, w.state.spent, Reservation(0, 0, 1, 0)).None?
    ensures var (r, t) := Executed(p, maxTurns, w, call, a);
            var toolLoop := T.AdmitTx(maxTurns, w.toolLoop, call).1;
            var state := w.state.(spent := Added(w.state.spent, Reservation(0, 0, 1, 0)));
            var (requested, n) := (w.requested + {call.callId}, w.executions + 1);
            && (!a.recorded ==> r == None && t == World(toolLoop, state, w.requested, w.records, w.executions))
            && (a.recorded && !a.timeLeft ==>
                  Answers(r, t, call, T.Exhausted, "incident deadline exhausted before context query",
                          toolLoop, state, requested, w.records, w.executions))
            && (a.recorded && a.timeLeft && a.evidence.None? ==>
                  Answers(r, t, call, a.class_, a.detail, toolLoop, state, requested, w.records, n))
            && (a.recorded && a.timeLeft && a.evidence.Some? ==>
                  match CommitTx(w.records, a.evidence.value.query, a.evidence.value.payload)
                  case Err(_) => r == None && t == World(toolLoop, state, requested, w.records, n)
                  case Ok((records, id)) =>
                    && r == Some(T.ToolResult(call.callId, a.class_, Some(id), a.detail))
                    && t == World(T.LoopState(toolLoop.turnsUsed, toolLoop.results + [r.value], toolLoop.seen), state, requested, records, n))
  {
    hide T.AdmitTx, T.Message, Exceeded, Added, CommitTx;
  }

  /** Turns left, plus the bytes until the conversation is cut off. */
  function Measure(maxTurns: nat, s: T.LoopState): int {
    var bytes := T.ResultBytes(s.results);
    (maxTurns - s.turnsUsed) + (if bytes > T.MAX_RESULT_BYTES then 0 else T.MAX_RESULT_BYTES + 1 - bytes)
  }

  /** The loop's turns, and its refusals, each of at least 19 bytes, account for every result. */
  ghost predicate Accounted(maxTurns: nat, s: T.LoopState, refusals: nat) {
    && |s.seen| == s.turnsUsed <= maxTurns && |s.results| <= s.turnsUsed + refusals
    && T.SHORTEST_REFUSAL * refusals <= T.ResultBytes(s.results)
  }

  /** A call that is refused before admission adds its text and nothing else. */
  ghost predicate RefusedCall(w: World, t: World, r: Option<T.ToolResult>) {
    r.Some? && |r.value.detail| >= T.SHORTEST_REFUSAL && t == WithResult(w, r.value)
  }

  /** An admitted call uses a turn; if it executes, it reserved a query and made its ID durable. */
  ghost predicate AdmittedCall(maxTurns: nat, w: World, t: World, r: Option<T.ToolResult>, call: T.ToolCall) {
    var (refused, admitted) := T.AdmitTx(maxTurns, w.toolLoop, call);
    && refused.None? && t.toolLoop == (if r.Some? then admitted.(results := admitted.results + [r.value]) else admitted)
    && t.state == w.state.(spent := t.state.spent) && w.requested <= t.requested && w.records <= t.records
    && (t.executions == w.executions
        || (t.executions == w.executions + 1 && t.state.spent != w.state.spent && call.callId !in w.requested && call.callId in t.requested))
  }

  lemma ExecutedCases(p: Plan, maxTurns: nat, w: World, call: T.ToolCall, a: ToolAnswer)
    ensures var (r, t) := Executed(p, maxTurns, w, call, a); RefusedCall(w, t, r) || AdmittedCall(maxTurns, w, t, r, call)
  {
    hide Exceeded, T.AdmitTx, T.Message, CommitTx;
    if a.evidence.Some? { CommitExtends(w.records, a.evidence.value.query, a.evidence.value.payload); }
    var refused := T.AdmitTx(maxTurns, w.toolLoop, call).0;
    if refused.Some? {
      MessageLength(refused.value);
    }
    RefusalLengths();
  }

  /** No refusal is silent: each has a text of at least 19 bytes. */
  lemma MessageLength(e: T.ToolLoopError)
    ensures |T.Message(e)| >= T.SHORTEST_REFUSAL
  {
  }

  lemma RefusalLengths()
    ensures |ALREADY| >= T.SHORTEST_REFUSAL
  {
  }

  lemma RefusedProgress(maxTurns: nat, w: World, t: World, r: Option<T.ToolResult>, refusals: nat)
    requires RefusedCall(w, t, r) && Accounted(maxTurns, w.toolLoop, refusals)
    requires T.ResultBytes(w.toolLoop.results) <= T.MAX_RESULT_BYTES
    ensures Accounted(maxTurns, t.toolLoop, refusals + 1)
    ensures 0 <= Measure(maxTurns, t.toolLoop) < Measure(maxTurns, w.toolLoop)
  {
    hide T.ResultBytes;
    T.ResultBytesAppend(w.toolLoop.results, r.value);
  }

  lemma AdmittedProgress(maxTurns: nat, w: World, t: World, r: Option<T.ToolResult>, call: T.ToolCall, refusals: nat)
    requires AdmittedCall(maxTurns, w, t, r, call) && Accounted(maxTurns, w.toolLoop, refusals)
    requires T.ResultBytes(w.toolLoop.results) <= T.MAX_RESULT_BYTES
    ensures t.toolLoop.turnsUsed == w.toolLoop.turnsUsed + 1 <= maxTurns
    ensures r.Some? ==> Accounted(maxTurns, t.toolLoop, refusals) && 0 <= Measure(maxTurns, t.toolLoop) < Measure(maxTurns, w.toolLoop)
  {
    hide T.ResultBytes, T.AdmitTx;
    T.AdmitUsesATurn(maxTurns, w.toolLoop, call);
    if r.Some? {
      T.ResultBytesAppend(w.toolLoop.results, r.value);
    }
  }

  /**
   Every tool call either uses an admitted turn or adds a refusal text, so the measure strictly
   decreases; a backend execution costs a turn, a reserved evidence query and a fresh durable ID.
   */
  lemma CallProgress(p: Plan, maxTurns: nat, w: World, call: T.ToolCall, a: ToolAnswer, refusals: nat) returns (more: nat)
    requires Accounted(maxTurns, w.toolLoop, refusals) && T.ResultBytes(w.toolLoop.results) <= T.MAX_RESULT_BYTES
    ensures var (r, t) := Executed(p, maxTurns, w, call, a);
            && (r.Some? ==> Accounted(maxTurns, t.toolLoop, refusals + more) && |t.toolLoop.results| == |w.toolLoop.results| + 1)
            && (r.Some? ==> 0 <= Measure(maxTurns, t.toolLoop) < Measure(maxTurns, w.toolLoop))
            && w.toolLoop.turnsUsed <= t.toolLoop.turnsUsed <= maxTurns
            && w.executions <= t.executions && t.executions - w.executions <= t.toolLoop.turnsUsed - w.toolLoop.turnsUsed
            && (t.executions > w.executions ==>
                  t.state.spent != w.state.spent && call.callId !in w.requested && call.callId in t.requested)
            && t.state == w.state.(spent := t.state.spent) && w.requested <= t.requested && w.records <= t.records
  {
    hide Executed, T.AdmitTx, Measure, T.ResultBytes;
    var (r, t) := Executed(p, maxTurns, w, call, a);
    ExecutedCases(p, maxTurns, w, call, a);
    if RefusedCall(w, t, r) {
      more := 1;
      RefusedProgress(maxTurns, w, t, r, refusals);
    } else {
      more := 0;
      AdmittedProgress(maxTurns, w, t, r, call, refusals);
      AdmitKeepsResults(maxTurns, w.toolLoop, call);
    }
  }

  /** A refused admission changes nothing. */
  lemma AdmitRefuses(maxTurns: nat, s: T.LoopState, call: T.ToolCall)
    ensures T.AdmitTx(maxTurns, s, call).0.Some? ==> T.AdmitTx(maxTurns, s, call).1 == s
  {
  }

  lemma AdmitKeepsResults(maxTurns: nat, s: T.LoopState, call: T.ToolCall)
    ensures T.AdmitTx(maxTurns, s, call).1.results == s.results
  {
  }

  /**
   A run in which no provider asks for tools: each candidate in turn is admitted, answers once, and is
   the first acceptable one, or fails. None from the first response on that does ask for tools.
   */
  ghost function Straight(env: Environment, p: Plan, r: Reservation, promptBytes: nat, records: seq<Record>,
                          ahead: seq<ProviderKind>, spent: Totals, tick: nat): Option<Result<RunStatus, LiveError>>
    decreases |ahead|
  {
    if ahead == [] then Some(Ok(Exhausted))
    else if ahead[0] != Deterministic && Exceeded(p.budget, spent, r).Some? then
      Some(Err(LiveError.Coordination(OverBudget(Exceeded(p.budget, spent, r).value))))
    else if AsksTools(ProviderTurn(env, ahead[0], tick)) then None
    else if !env.persists(tick) then Some(Err(JournalError))
    else if AcceptableTurn(ProviderTurn(env, ahead[0], tick), promptBytes, records) then Some(Ok(Succeeded(ahead[0])))
    else Straight(env, p, r, promptBytes, records, ahead[1..], if ahead[0] == Deterministic then spent else Added(spent, r), tick + 1)
  }

  /** The first acceptable candidate wins, once the budget admits it and those before it failed in time. */
  lemma {:induction false} StraightTakesFirst(env: Environment, p: Plan, r: Reservation, promptBytes: nat, records: seq<Record>,
                                              ahead: seq<ProviderKind>, spent: Totals, tick: nat, n: nat)
    requires n < |ahead| && AcceptableTurn(ProviderTurn(env, ahead[n], tick + n), promptBytes, records)
    requires forall i | 0 <= i < n ::
               !AsksTools(ProviderTurn(env, ahead[i], tick + i)) && !AcceptableTurn(ProviderTurn(env, ahead[i], tick + i), promptBytes, records)
    requires forall k | tick <= k <= tick + n :: env.persists(k)
    requires forall i | 0 <= i <= n ::
               ahead[i] == Deterministic || Exceeded(p.budget, SpentOn(ahead[..i], spent, r), r).None?
    ensures Straight(env, p, r, promptBytes, records, ahead, spent, tick) == Some(Ok(Succeeded(ahead[n])))
    decreases n
  {
    hide ProviderTurn, Supported, Exceeded, Added;
    assert ahead[..0] == [];
    assert SpentOn(ahead[..0], spent, r) == spent;
    assert ProviderTurn(env, ahead[0], tick + 0) == ProviderTurn(env, ahead[0], tick);
    if n > 0 {
      var next := if ahead[0] == Deterministic then spent else Added(spent, r);
      forall i | 0 <= i <= n - 1 ensures SpentOn(ahead[1..][..i], next, r) == SpentOn(ahead[..i + 1], spent, r) {
        assert ahead[..i + 1][0] == ahead[0] && ahead[..i + 1][1..] == ahead[1..][..i];
      }
      forall i | 0 <= i <= n - 1
        ensures ahead[1..][i] == ahead[i + 1]
        ensures ProviderTurn(env, ahead[1..][i], tick + 1 + i) == ProviderTurn(env, ahead[i + 1], tick + (i + 1))
      {
      }
      StraightTakesFirst(env, p, r, promptBytes, records, ahead[1..], next, tick + 1, n - 1);
    }
  }

  /** What the providers before one have reserved. */
  function SpentOn(kinds: seq<ProviderKind>, spent: Totals, r: Reservation): Totals
    decreases |kinds|
  {
    if kinds == [] then spent else SpentOn(kinds[1..], if kinds[0] == Deterministic then spent else Added(spent, r), r)
  }

  /**
   The calls of one response, in order: how they end, what they leave, and at which tick. An error of a
   call or of a flush ends them, and so does more output than a conversation may retain.
   */
  ghost function CallsRun(env: Environment, p: Plan, maxTurns: nat, w: World, calls: seq<T.ToolCall>, tick: nat): (CallsEnd, World, nat)
    decreases |calls|
  {
    if calls == [] then (AllDone, w, tick) else
    var (r, t) := Executed(p, maxTurns, w, calls[0], env.tool(tick));
    if r.None? then (Errored(EvidenceError), t, tick)
    else if !env.persists(tick + 1) then (Errored(JournalError), t, tick + 1)
    else if T.ResultBytes(t.toolLoop.results) > 64 * 1024 then
      (if env.persists(tick + 2) then CutOff else Errored(JournalError), t, tick + 2)
    else CallsRun(env, p, maxTurns, t, calls[1..], tick + 2)
  }

  lemma CallsRunStep(env: Environment, p: Plan, maxTurns: nat, w: World, calls: seq<T.ToolCall>, i: nat, tick: nat)
    requires i < |calls|
    ensures var (r, t) := Executed(p, maxTurns, w, calls[i], env.tool(tick));
            CallsRun(env, p, maxTurns, w, calls[i..], tick)
            == if r.None? then (Errored(EvidenceError), t, tick)
            else if !env.persists(tick + 1) then (Errored(JournalError), t, tick + 1)
            else if T.ResultBytes(t.toolLoop.results) > T.MAX_RESULT_BYTES then
              (if env.persists(tick + 2) then CutOff else Errored(JournalError), t, tick + 2)
            else CallsRun(env, p, maxTurns, t, calls[i + 1..], tick + 2)
  {
    hide Executed, T.ResultBytes;
    assert calls[i..][0] == calls[i] && calls[i..][1..] == calls[i + 1..];
  }

  lemma NoCallsLeft(env: Environment, p: Plan, maxTurns: nat, w: World, calls: seq<T.ToolCall>, tick: nat)
    ensures CallsRun(env, p, maxTurns, w, calls[|calls|..], tick) == (AllDone, w, tick)
  {
    assert calls[|calls|..] == [];
  }

  /**
   Why calls end: a flush failed, a checkpoint failed or a record was refused, and otherwise the
   conversation is cut off exactly if it retains more than 64 KiB.
   */
  lemma {:induction false} CallsEndExactly(env: Environment, p: Plan, maxTurns: nat, w: World, calls: seq<T.ToolCall>, tick: nat)
    requires T.ResultBytes(w.toolLoop.results) <= 64 * 1024
    ensures var (end, t, next) := CallsRun(env, p, maxTurns, w, calls, tick);
            && (end == Errored(JournalError) ==> exists k :: tick < k && !env.persists(k))
            && (end == Errored(EvidenceError) ==> exists k :: tick <= k && (!env.tool(k).recorded || env.tool(k).evidence.Some?))
            && (end == CutOff ==> T.ResultBytes(t.toolLoop.results) > 64 * 1024)
            && (end == AllDone ==> T.ResultBytes(t.toolLoop.results) <= 64 * 1024)
            && (end.Errored? ==> end.error == JournalError || end.error == EvidenceError)
    decreases |calls|
  {
    hide Executed, T.ResultBytes;
    if calls != [] {
      var (r, t) := Executed(p, maxTurns, w, calls[0], env.tool(tick));
      if r.None? { NoAnswer(p, maxTurns, w, calls[0], env.tool(tick)); }
      if T.ResultBytes(t.toolLoop.results) <= 64 * 1024 { CallsEndExactly(env, p, maxTurns, t, calls[1..], tick + 2); }
    }
  }

  lemma NoAnswer(p: Plan, maxTurns: nat, w: World, call: T.ToolCall, a: ToolAnswer)
    requires Executed(p, maxTurns, w, call, a).0.None?
    ensures !a.recorded || a.evidence.Some?
  {
    hide T.AdmitTx, T.Message, Exceeded, Added, CommitTx;
  }

  /** After `n` responses that all asked for tools and whose calls were all done: what was left, and the tick of the next response. */
  ghost function After(env: Environment, p: Plan, maxTurns: nat, kind: ProviderKind, w: World, start: nat, n: nat): Option<(World, nat)> {
    if n == 0 then Some((w, start)) else
    match After(env, p, maxTurns, kind, w, start, n - 1)
    case None => None
    case Some((v, at)) =>
      if !AsksTools(ProviderTurn(env, kind, at)) then None else
      var (end, t, next) := CallsRun(env, p, maxTurns, v, ProviderTurn(env, kind, at).calls, at);
      if end.AllDone? then Some((t, next)) else None
  }

  /** How a provider's run ends with the response at this tick, what it leaves and when; None while it goes on. */
  ghost function Ending(env: Environment, p: Plan, maxTurns: nat, kind: ProviderKind, promptBytes: nat, v: World, at: nat)
    : Option<(Result<Option<RunStatus>, LiveError>, World, nat)>
  {
    var turn := ProviderTurn(env, kind, at);
    if AsksTools(turn) then
      var (end, t, next) := CallsRun(env, p, maxTurns, v, turn.calls, at);
      match end
      case AllDone => None
      case CutOff => Some((Ok(None), t, next))
      case Errored(e) => Some((Err(e), t, next))
    else if !env.persists(at) then Some((Err(JournalError), v, at))
    else if AcceptableTurn(turn, promptBytes, v.records) then Some((Ok(Some(Succeeded(kind))), v, at))
    else Some((Ok(None), v, at))
  }

  /** The provider's run ends with its response number `n`, counted from 0. */
  ghost predicate EndsAfter(env: Environment, p: Plan, maxTurns: nat, kind: ProviderKind, promptBytes: nat, w: World, start: nat, n: nat) {
    var reached := After(env, p, maxTurns, kind, w, start, n);
    reached.Some? && Ending(env, p, maxTurns, kind, promptBytes, reached.value.0, reached.value.1).Some?
  }

  /** A provider's run: the responses go on until one ends it. */
  ghost function ProviderRun(env: Environment, p: Plan, maxTurns: nat, kind: ProviderKind, promptBytes: nat, w: World, start: nat)
    : (Result<Option<RunStatus>, LiveError>, World, nat)
  {
    if n: nat :| EndsAfter(env, p, maxTurns, kind, promptBytes, w, start, n) then
      var reached := After(env, p, maxTurns, kind, w, start, n).value;
      Ending(env, p, maxTurns, kind, promptBytes, reached.0, reached.1).value
    else (Ok(None), w, start)
  }

  /** No run ends twice. */
  lemma {:induction false} EndsOnce(env: Environment, p: Plan, maxTurns: nat, kind: ProviderKind, promptBytes: nat, w: World, start: nat,
                                    m: nat, n: nat)
    requires m < n && After(env, p, maxTurns, kind, w, start, n).Some?
    ensures !EndsAfter(env, p, maxTurns, kind, promptBytes, w, start, m) && After(env, p, maxTurns, kind, w, start, m).Some?
    decreases n
  {
    hide CallsRun, ProviderTurn, Supported;
    if m < n - 1 { EndsOnce(env, p, maxTurns, kind, promptBytes, w, start, m, n - 1); }
  }

  lemma RunEndsThere(env: Environment, p: Plan, maxTurns: nat, kind: ProviderKind, promptBytes: nat, w: World, start: nat, n: nat)
    requires EndsAfter(env, p, maxTurns, kind, promptBytes, w, start, n)
    ensures var reached := After(env, p, maxTurns, kind, w, start, n).value;
            ProviderRun(env, p, maxTurns, kind, promptBytes, w, start)
            == Ending(env, p, maxTurns, kind, promptBytes, reached.0, reached.1).value
  {
    hide After, Ending;
    forall m: nat | EndsAfter(env, p, maxTurns, kind, promptBytes, w, start, m) ensures m == n {
      if m < n { EndsOnce(env, p, maxTurns, kind, promptBytes, w, start, m, n); }
      if n < m { EndsOnce(env, p, maxTurns, kind, promptBytes, w, start, n, m); }
    }
  }

  /** A first response that asks for no tools ends the run at once, with nothing executed. */
  lemma NoToolsEndsAtOnce(env: Environment, p: Plan, maxTurns: nat, kind: ProviderKind, promptBytes: nat, w: World, start: nat)
    requires !AsksTools(ProviderTurn(env, kind, start))
    ensures ProviderRun(env, p, maxTurns, kind, promptBytes, w, start)
            == (if !env.persists(start) then Err(JournalError)
                else if AcceptableTurn(ProviderTurn(env, kind, start), promptBytes, w.records) then Ok(Some(Succeeded(kind))) else Ok(None),
                w, start)
  {
    hide ProviderRun, Supported, ProviderTurn;
    StandsFirst(env, p, maxTurns, kind, w, start);
    StandsNext(env, p, maxTurns, kind, promptBytes, w, start, 0, w, start);
  }

  /** What the caller sees of how a run ended. */
  ghost predicate LeftAs(end: World, spent: Totals, requested: set<string>, records: seq<Record>, executions: nat) {
    end.state.spent == spent && end.requested == requested && end.records == records && end.executions == executions
  }

  lemma LeftAsItIs(w: World)
    ensures LeftAs(w, w.state.spent, w.requested, w.records, w.executions)
  {
  }

  /** The loop's place: response number `n` comes at this tick, in this world. */
  ghost predicate Stands(env: Environment, p: Plan, maxTurns: nat, kind: ProviderKind, w: World, start: nat, n: int, v: World, at: nat) {
    n >= 0 && After(env, p, maxTurns, kind, w, start, n) == Some((v, at))
  }

  lemma StandsFirst(env: Environment, p: Plan, maxTurns: nat, kind: ProviderKind, w: World, start: nat)
    ensures Stands(env, p, maxTurns, kind, w, start, 0, w, start)
  {
  }

  /** The response at which the loop stands ends the run as it should, or the loop moves on behind its calls. */
  lemma StandsNext(env: Environment, p: Plan, maxTurns: nat, kind: ProviderKind, promptBytes: nat, w: World, start: nat, n: int, v: World, at: nat)
    requires Stands(env, p, maxTurns, kind, w, start, n, v, at)
    ensures var turn := ProviderTurn(env, kind, at);
            var run := ProviderRun(env, p, maxTurns, kind, promptBytes, w, start);
            if !AsksTools(turn) then
              run == (if !env.persists(at) then Err(JournalError)
                      else if AcceptableTurn(turn, promptBytes, v.records) then Ok(Some(Succeeded(kind))) else Ok(None), v, at)
            else
              var (end, t, next) := CallsRun(env, p, maxTurns, v, turn.calls, at);
              match end
              case AllDone => Stands(env, p, maxTurns, kind, w, start, n + 1, t, next)
              case CutOff => run == (Ok(None), t, next)
              case Errored(e) => run == (Err(e), t, next)
  {
    hide CallsRun, ProviderTurn, Supported, ProviderRun;
    if EndsAfter(env, p, maxTurns, kind, promptBytes, w, start, n) {
      RunEndsThere(env, p, maxTurns, kind, promptBytes, w, start, n);
    }
  }

  // ---- A whole run as a recursive function ----

  /** The same world under another coordinator state that has spent as much. */
  ghost function Rebased(w: World, s: State): World {
    w.(state := s.(spent := w.state.spent))
  }

  lemma ExecutedRebased(p: Plan, maxTurns: nat, w: World, call: T.ToolCall, a: ToolAnswer, s: State)
    ensures var (r, t) := Executed(p, maxTurns, w, call, a); Executed(p, maxTurns, Rebased(w, s), call, a) == (r, Rebased(t, s))
  {
    hide T.AdmitTx, T.Message, Exceeded, Added, CommitTx;
  }

  lemma {:induction false} CallsRunRebased(env: Environment, p: Plan, maxTurns: nat, w: World, calls: seq<T.ToolCall>, tick: nat, s: State)
    ensures var (end, t, next) := CallsRun(env, p, maxTurns, w, calls, tick);
            CallsRun(env, p, maxTurns, Rebased(w, s), calls, tick) == (end, Rebased(t, s), next)
    decreases |calls|
  {
    hide Executed, T.ResultBytes;
    if calls != [] {
      ExecutedRebased(p, maxTurns, w, calls[0], env.tool(tick), s);
      CallsRunRebased(env, p, maxTurns, Executed(p, maxTurns, w, calls[0], env.tool(tick)).1, calls[1..], tick + 2, s);
    }
  }

  lemma {:induction false} AfterRebased(env: Environment, p: Plan, maxTurns: nat, kind: ProviderKind, w: World, start: nat, n: nat, s: State)
    ensures var (a, b) := (After(env, p, maxTurns, kind, w, start, n), After(env, p, maxTurns, kind, Rebased(w, s), start, n));
            (a.None? <==> b.None?) && (a.Some? ==> b.value == (Rebased(a.value.0, s), a.value.1))
  {
    hide CallsRun, Rebased;
    if n > 0 {
      AfterRebased(env, p, maxTurns, kind, w, start, n - 1, s);
      var before := After(env, p, maxTurns, kind, w, start, n - 1);
      if before.Some? && AsksTools(ProviderTurn(env, kind, before.value.1)) {
        CallsRunRebased(env, p, maxTurns, before.value.0, ProviderTurn(env, kind, before.value.1).calls, before.value.1, s);
      }
    }
  }

  lemma EndingRebased(env: Environment, p: Plan, maxTurns: nat, kind: ProviderKind, promptBytes: nat, v: World, at: nat, s: State)
    ensures var (a, b) := (Ending(env, p, maxTurns, kind, promptBytes, v, at), Ending(env, p, maxTurns, kind, promptBytes, Rebased(v, s), at));
            (a.None? <==> b.None?) && (a.Some? ==> b.value == (a.value.0, Rebased(a.value.1, s), a.value.2))
  {
    hide CallsRun, ProviderTurn, Supported;
    if AsksTools(ProviderTurn(env, kind, at)) {
      CallsRunRebased(env, p, maxTurns, v, ProviderTurn(env, kind, at).calls, at, s);
    }
  }

  /** What a provider does depends on what was spent, and on nothing else of the coordinator. */
  lemma ProviderRunRebased(env: Environment, p: Plan, maxTurns: nat, kind: ProviderKind, promptBytes: nat, w: World, start: nat, s: State)
    ensures var (r, end, at) := ProviderRun(env, p, maxTurns, kind, promptBytes, w, start);
            ProviderRun(env, p, maxTurns, kind, promptBytes, Rebased(w, s), start) == (r, Rebased(end, s), at)
  {
    hide After, Ending, Rebased;
    forall n: nat
      ensures EndsAfter(env, p, maxTurns, kind, promptBytes, w, start, n) <==> EndsAfter(env, p, maxTurns, kind, promptBytes, Rebased(w, s), start, n)
    {
      AfterRebased(env, p, maxTurns, kind, w, start, n, s);
      var reached := After(env, p, maxTurns, kind, w, start, n);
      if reached.Some? { EndingRebased(env, p, maxTurns, kind, promptBytes, reached.value.0, reached.value.1, s); }
    }
    if n: nat :| EndsAfter(env, p, maxTurns, kind, promptBytes, w, start, n) {
      RunEndsThere(env, p, maxTurns, kind, promptBytes, w, start, n);
      RunEndsThere(env, p, maxTurns, kind, promptBytes, Rebased(w, s), start, n);
      AfterRebased(env, p, maxTurns, kind, w, start, n, s);
      var reached := After(env, p, maxTurns, kind, w, start, n).value;
      EndingRebased(env, p, maxTurns, kind, promptBytes, reached.0, reached.1, s);
    }
  }

  /** What one provider leaves to the next: the sum spent, the durable requests, the board, and the executions so far. */
  datatype Left = Left(spent: Totals, requested: set<string>, records: seq<Record>, executions: nat)

  ghost function Alone(l: Left): World {
    World(T.FRESH, Coordinator.FRESH.(spent := l.spent), l.requested, l.records, l.executions)
  }

  /**
   A whole run: each candidate in turn is admitted if the budget allows it, runs until it ends, and its
   success or error is the result; a failed one leaves the rest to the next, and without one the run is exhausted.
   */
  ghost function Live(env: Environment, p: Plan, maxTurns: nat, r: Reservation, promptBytes: nat, ahead: seq<ProviderKind>, l: Left, tick: nat)
    : Result<RunStatus, LiveError>
    decreases |ahead|
  {
    if ahead == [] then Ok(Exhausted)
    else if ahead[0] != Deterministic && Exceeded(p.budget, l.spent, r).Some? then
      Err(LiveError.Coordination(OverBudget(Exceeded(p.budget, l.spent, r).value)))
    else
      var admitted := if ahead[0] == Deterministic then l else l.(spent := Added(l.spent, r));
      var (ended, end, at) := ProviderRun(env, p, maxTurns, ahead[0], promptBytes, Alone(admitted), tick);
      match ended
      case Err(e) => Err(e)
      case Ok(Some(status)) => Ok(status)
      case Ok(None) => Live(env, p, maxTurns, r, promptBytes, ahead[1..], Left(end.state.spent, end.requested, end.records, end.executions), at + 1)
  }

  lemma LiveStep(env: Environment, p: Plan, maxTurns: nat, r: Reservation, promptBytes: nat, ahead: seq<ProviderKind>, l: Left, tick: nat,
                 s: State)
    ensures var live := Live(env, p, maxTurns, r, promptBytes, ahead, l, tick);
            && (ahead == [] ==> live == Ok(Exhausted))
            && (ahead != [] ==>
                  if ahead[0] != Deterministic && Exceeded(p.budget, l.spent, r).Some? then
                    live == Err(LiveError.Coordination(OverBudget(Exceeded(p.budget, l.spent, r).value)))
                  else s.spent == (if ahead[0] == Deterministic then l.spent else Added(l.spent, r)) ==>
                    var run := ProviderRun(env, p, maxTurns, ahead[0], promptBytes, World(T.FRESH, s, l.requested, l.records, l.executions), tick);
                    match run.0
                    case Err(e) => live == Err(e)
                    case Ok(Some(status)) => live == Ok(status)
                    case Ok(None) =>
                      live == Live(env, p, maxTurns, r, promptBytes, ahead[1..],
                                   Left(run.1.state.spent, run.1.requested, run.1.records, run.1.executions), run.2 + 1))
  {
    hide ProviderRun, Exceeded, Added;
    if ahead != [] {
      var admitted := if ahead[0] == Deterministic then l else l.(spent := Added(l.spent, r));
      ProviderRunRebased(env, p, maxTurns, ahead[0], promptBytes, Alone(admitted), tick, s);
    }
  }

  /** A run without tool calls is such a run. */
  lemma {:induction false} StraightIsLive(env: Environment, p: Plan, maxTurns: nat, r: Reservation, promptBytes: nat,
                                          ahead: seq<ProviderKind>, l: Left, tick: nat)
    ensures var straight := Straight(env, p, r, promptBytes, l.records, ahead, l.spent, tick);
            straight.Some? ==> Live(env, p, maxTurns, r, promptBytes, ahead, l, tick) == straight.value
    decreases |ahead|
  {
    hide ProviderTurn, Supported, Exceeded, Added, AsksTools, ProviderRun, CallsRun;
    if ahead != [] && !AsksTools(ProviderTurn(env, ahead[0], tick)) {
      var admitted := if ahead[0] == Deterministic then l else l.(spent := Added(l.spent, r));
      RunEndsThere(env, p, maxTurns, ahead[0], promptBytes, Alone(admitted), tick, 0);
      StraightIsLive(env, p, maxTurns, r, promptBytes, ahead[1..], admitted, tick + 1);
    }
  }

  /** The first acceptable candidate wins a whole run, as it does a straight one. */
  lemma LiveTakesFirst(env: Environment, p: Plan, maxTurns: nat, r: Reservation, promptBytes: nat,
                       ahead: seq<ProviderKind>, l: Left, tick: nat, n: nat)
    requires n < |ahead| && AcceptableTurn(ProviderTurn(env, ahead[n], tick + n), promptBytes, l.records)
    requires forall i | 0 <= i < n ::
               !AsksTools(ProviderTurn(env, ahead[i], tick + i)) && !AcceptableTurn(ProviderTurn(env, ahead[i], tick + i), promptBytes, l.records)
    requires forall k | tick <= k <= tick + n :: env.persists(k)
    requires forall i | 0 <= i <= n ::
               ahead[i] == Deterministic || Exceeded(p.budget, SpentOn(ahead[..i], l.spent, r), r).None?
    ensures Live(env, p, maxTurns, r, promptBytes, ahead, l, tick) == Ok(Succeeded(ahead[n]))
  {
    hide Live, Straight, ProviderTurn, AcceptableTurn;
    StraightTakesFirst(env, p, r, promptBytes, l.records, ahead, l.spent, tick, n);
    StraightIsLive(env, p, maxTurns, r, promptBytes, ahead, l, tick);
  }

  datatype LiveError = Coordination(error: CoordinatorError) | EvidenceError | JournalError

  /** One incident's investigation: its runtime, the durable tool requests of its scope, and the executions so far. */
  class LiveInvestigation {
    const runtime: IncidentRuntime
    const maxTurns: U32
    var requested: set<string>
    ghost var executions: nat

    constructor (runtime: IncidentRuntime, maxTurns: U32)
      requires maxTurns > 0
      ensures this.runtime == runtime && this.maxTurns == maxTurns && requested == {} && executions == 0
    {
      this.runtime, this.maxTurns, requested, executions := runtime, maxTurns, {}, 0;
    }

    ghost function Facing(toolLoop: T.ToolLoop): World
      reads this, runtime, runtime.run, runtime.run.budget, runtime.board, toolLoop
    {
      World(toolLoop.Now(), runtime.run.Now(), requested, runtime.board.records, executions)
    }

    /** What a provider's run begins with, besides its own loop. */
    ghost function Standing(): Left
      reads this, runtime, runtime.run, runtime.run.budget, runtime.board
    {
      Left(runtime.run.Now().spent, requested, runtime.board.records, executions)
    }

    method Decline(toolLoop: T.ToolLoop, call: T.ToolCall, class_: T.ToolResultClass, detail: string) returns (r: Option<T.ToolResult>)
      modifies toolLoop
      ensures (r, Facing(toolLoop)) == Refuse(old(Facing(toolLoop)), call, class_, detail)
    {
      r := Some(T.ToolResult(call.callId, class_, None, detail));
      toolLoop.RecordResult(r.value);
    }

    method ExecuteModelTool(toolLoop: T.ToolLoop, call: T.ToolCall, a: ToolAnswer, at: U64) returns (r: Option<T.ToolResult>)
      requires runtime.Valid() && toolLoop.maxTurns == maxTurns
      modifies this, toolLoop, runtime`journal, runtime.board, runtime.run.budget
      ensures (r, Facing(toolLoop)) == Executed(runtime.run.Planned(), maxTurns, old(Facing(toolLoop)), call, a)
      ensures runtime.Valid() && AttemptsIn(runtime.journal) == old(AttemptsIn(runtime.journal))
    {
      hide Exceeded, Added, Inv, BoardInv, T.Message, T.AdmitTx, Refuse, Performed, AttemptsIn;
      if call.callId in requested {
        r := Decline(toolLoop, call, T.Exhausted, ALREADY);
        return;
      }
      AdmitRefuses(maxTurns, toolLoop.Now(), call);
      var refused := toolLoop.Admit(call);
      if refused.Some? {
        r := Decline(toolLoop, call, if refused.value.TurnLimit? then T.Exhausted else T.Denied, T.Message(refused.value));
        return;
      }
      QueryStaysValid(runtime.run.Planned(), runtime.Now());
      var query := runtime.run.ReserveEvidenceQuery();
      if query.Err? {
        r := Decline(toolLoop, call, T.Exhausted, NO_QUERIES);
        return;
      }
      r := Perform(toolLoop, call, a, at);
    }

    method Perform(toolLoop: T.ToolLoop, call: T.ToolCall, a: ToolAnswer, at: U64) returns (r: Option<T.ToolResult>)
      requires runtime.Valid()
      modifies this, toolLoop, runtime`journal, runtime.board
      ensures (r, Facing(toolLoop)) == Performed(old(Facing(toolLoop)), call, a)
      ensures runtime.Valid() && AttemptsIn(runtime.journal) == old(AttemptsIn(runtime.journal))
    {
      hide CommitTx, Consistent, BoardInv, Refuse;
      if !a.recorded { return None; }
      requested := requested + {call.callId};
      if !a.timeLeft {
        r := Decline(toolLoop, call, T.Exhausted, NO_TIME);
        return;
      }
      executions := executions + 1;
      var evidence: Option<string> := None;
      if a.evidence.Some? {
        var committed := runtime.CommitEvidence(a.evidence.value.query, a.evidence.value.payload, at);
        if committed.Err? { return None; }
        evidence := Some(committed.value);
      }
      r := Some(T.ToolResult(call.callId, a.class_, evidence, a.detail));
      toolLoop.RecordResult(r.value);
    }

    /** The run as it stands between two steps of a provider's turn. */
    ghost predicate Running(kind: ProviderKind, was: View)
      reads this, runtime, runtime.run, runtime.run.budget, runtime.board
    {
      && runtime.Valid() && runtime.run.active == Some(kind) && runtime.run.status.None?
      && runtime.run.attempts == was.state.attempts && runtime.run.attempted == was.state.attempted
    }

    /** Records a failed attempt of the active provider, then flushes. */
    method FailRun(env: Environment, kind: ProviderKind, failure: FailureClass, facts: AttemptFacts, tick: nat) returns (r: Option<LiveError>)
      requires runtime.Valid() && runtime.run.active == Some(kind) && runtime.run.status.None?
      modifies runtime`journal, runtime.run
      ensures runtime.Valid() && runtime.run.active.None? && runtime.run.status.None?
      ensures runtime.run.attempts == old(runtime.run.attempts) + [Attempt(kind, Failed(failure), facts)]
      ensures runtime.run.attempted == old(runtime.run.attempted)
      ensures r == if env.persists(tick) then None else Some(JournalError)
    {
      FailProviderAt(runtime.run.Planned(), runtime.Now(), failure, facts, env.clock(tick));
      hide *;
      var failed := runtime.FailProvider(kind, failure, facts, env.clock(tick));
      match failed
      case Err(e) => return Some(LiveError.Coordination(e));
      case Ok(_) => return if env.persists(tick) then None else Some(JournalError);
    }

    /** Every call of one response, until done, cut off by too much output, or failed. */
    method RunCalls(env: Environment, kind: ProviderKind, toolLoop: T.ToolLoop, calls: seq<T.ToolCall>, facts: AttemptFacts, start: nat, ghost before: nat)
      returns (end: CallsEnd, tick: nat, ghost refusals: nat)
      requires Running(kind, runtime.Now()) && toolLoop.maxTurns == maxTurns && calls != []
      requires Accounted(maxTurns, toolLoop.Now(), before) && T.ResultBytes(toolLoop.results) <= T.MAX_RESULT_BYTES
      modifies this, toolLoop, runtime`journal, runtime.board, runtime.run, runtime.run.budget
      ensures runtime.Valid() && runtime.run.attempted == old(runtime.run.attempted) && runtime.run.status.None?
      ensures end.AllDone? ==>
                && Running(kind, old(runtime.Now())) && Accounted(maxTurns, toolLoop.Now(), refusals)
                && T.ResultBytes(toolLoop.results) <= T.MAX_RESULT_BYTES && |toolLoop.results| == |old(toolLoop.results)| + |calls|
                && 0 <= Measure(maxTurns, toolLoop.Now()) < old(Measure(maxTurns, toolLoop.Now()))
      ensures end.CutOff? ==>
                && runtime.run.active.None?
                && runtime.run.attempts == old(runtime.run.attempts) + [Attempt(kind, Failed(MalformedResponse), facts)]
      ensures var run := CallsRun(env, runtime.run.Planned(), maxTurns, old(Facing(toolLoop)), calls, start);
              && end == run.0 && tick == run.2 && (end.AllDone? ==> Facing(toolLoop) == run.1)
              && (end.CutOff? ==> LeftAs(run.1, runtime.run.Now().spent, requested, runtime.board.records, executions))
      ensures old(toolLoop.turnsUsed) <= toolLoop.turnsUsed <= maxTurns && start <= tick
      ensures old(executions) <= executions && executions - old(executions) <= toolLoop.turnsUsed - old(toolLoop.turnsUsed)
      ensures old(runtime.board.records) <= runtime.board.records
    {
      hide Executed, Measure, T.ResultBytes, Accounted, Consistent, BoardInv, CommitTx, CallsRun;
      ghost var was := runtime.Now();
      ghost var p := runtime.run.Planned();
      ghost var run := CallsRun(env, p, maxTurns, Facing(toolLoop), calls, start);
      tick, refusals := start, before;
      assert calls[0..] == calls;
      AccountedTurns(maxTurns, toolLoop.Now(), refusals);
      for i := 0 to |calls|
        invariant Running(kind, was) && Accounted(maxTurns, toolLoop.Now(), refusals)
        invariant T.ResultBytes(toolLoop.results) <= T.MAX_RESULT_BYTES && |toolLoop.results| == |old(toolLoop.results)| + i
        invariant Measure(maxTurns, toolLoop.Now()) <= old(Measure(maxTurns, toolLoop.Now())) - i
        invariant i > 0 ==> 0 <= Measure(maxTurns, toolLoop.Now())
        invariant CallsRun(env, p, maxTurns, Facing(toolLoop), calls[i..], tick) == run
        invariant old(toolLoop.turnsUsed) <= toolLoop.turnsUsed <= maxTurns && start <= tick
        invariant old(executions) <= executions && executions - old(executions) <= toolLoop.turnsUsed - old(toolLoop.turnsUsed)
        invariant old(runtime.board.records) <= runtime.board.records
      {
        CallsRunStep(env, p, maxTurns, Facing(toolLoop), calls, i, tick);
        ghost var more := CallProgress(runtime.run.Planned(), maxTurns, Facing(toolLoop), calls[i], env.tool(tick), refusals);
        var result := ExecuteModelTool(toolLoop, calls[i], env.tool(tick), env.clock(tick));
        if result.None? { return Errored(EvidenceError), tick, refusals; }
        refusals := refusals + more;
        runtime.RecordToolContext(calls[i].callId, Text.Utf8Length(result.value.detail), env.clock(tick));
        tick := tick + 1;
        if !env.persists(tick) { return Errored(JournalError), tick, refusals; }
        tick := tick + 1;
        var bytes := toolLoop.SumResultBytes();
        if bytes > T.MAX_RESULT_BYTES {
          var failed := FailRun(env, kind, MalformedResponse, facts, tick);
          return if failed.Some? then Errored(failed.value) else CutOff, tick, refusals;
        }
      }
      NoCallsLeft(env, p, maxTurns, Facing(toolLoop), calls, tick);
      return AllDone, tick, refusals;
    }

    /**
     One provider's complete run: turns until a final report, a failed turn, or too much tool output.
     It ends for every environment, without the deadline. `last` is the tick of the last response asked
     for: an acceptable one is a success, and any other that asks for no tools a failure of its class.
     The attempt recorded tells the time, tokens and calls of all its responses.
     */
    method RunProvider(env: Environment, kind: ProviderKind, promptBytes: nat, start: nat)
      returns (r: Result<Option<RunStatus>, LiveError>, tick: nat, ghost turns: nat, ghost last: nat, ghost ticks: seq<nat>)
      requires Running(kind, runtime.Now())
      modifies this, runtime`journal, runtime`report, runtime.board, runtime.run, runtime.run.budget
      ensures runtime.Valid() && runtime.run.attempted == old(runtime.run.attempted)
      ensures r.Ok? && r.value.Some? ==>
                && r.value.value == Succeeded(kind) && kind != Deterministic && runtime.run.status == r.value && runtime.run.active.None?
                && AcceptableTurn(ProviderTurn(env, kind, last), promptBytes, runtime.board.records)
                && runtime.report == Some(ProviderTurn(env, kind, last).report)
      ensures r.Ok? && r.value.None? ==>
                && runtime.run.status.None? && runtime.run.active.None? && runtime.report == old(runtime.report)
                && FailedNext(kind, old(runtime.run.attempts), runtime.run.attempts)
                && !AcceptableTurn(ProviderTurn(env, kind, last), promptBytes, runtime.board.records)
                && runtime.run.attempts[|old(runtime.run.attempts)|].outcome == Failed(FailureOf(ProviderTurn(env, kind, last)))
      ensures !AsksTools(ProviderTurn(env, kind, last)) ==>
                r == if !env.persists(last) then Err(JournalError)
                     else if AcceptableTurn(ProviderTurn(env, kind, last), promptBytes, runtime.board.records) then Ok(Some(Succeeded(kind)))
                     else Ok(None)
      ensures var run := ProviderRun(env, runtime.run.Planned(), maxTurns, kind, promptBytes,
                                     World(T.FRESH, old(runtime.run.Now()), old(requested), old(runtime.board.records), old(executions)), start);
              r == run.0 && (r.Ok? ==> tick == run.2 && LeftAs(run.1, runtime.run.Now().spent, requested, runtime.board.records, executions))
      ensures Conversation(env, kind, start, ticks, last) && |ticks| == turns
      ensures r.Ok? ==>
                && |runtime.run.attempts| == |old(runtime.run.attempts)| + 1
                && runtime.run.attempts[..|old(runtime.run.attempts)|] == old(runtime.run.attempts)
                && runtime.run.attempts[|old(runtime.run.attempts)|].provider == kind
                && Tells(runtime.run.attempts[|old(runtime.run.attempts)|].facts, env, kind, ticks)
      ensures old(executions) <= executions <= old(executions) + maxTurns
      ensures old(runtime.board.records) <= runtime.board.records
      ensures turns <= 1 + maxTurns + MAX_REFUSALS
    {
      hide Measure, T.ResultBytes, Accounted, Consistent, BoardInv, Ids, Facts, SaturatingSum, Supported, ProviderTurn;
      hide TotalTime, TotalTokens, TotalCalls, Plus, Capped, Tells, Counts, Asked, Conversation, CallsRun, ProviderRun, Stands, LeftAs;
      ghost var was, initial := runtime.Now(), executions;
      var toolLoop := new T.ToolLoop(maxTurns);
      ghost var refusals: nat := 0;
      FreshAccounted(maxTurns, toolLoop.Now());
      tick, turns := start, 1;
      var turn := ProviderTurn(env, kind, tick);
      var elapsed: U64, tokens: Option<U64> := 0, None;
      ticks := [];
      ghost var p, w := runtime.run.Planned(), Facing(toolLoop);
      StandsFirst(env, p, maxTurns, kind, w, start);
      NothingYet(env, kind, start);
      while true
        invariant Running(kind, was) && runtime.report == was.report && toolLoop.maxTurns == maxTurns && fresh(toolLoop)
        invariant Accounted(maxTurns, toolLoop.Now(), refusals) && T.ResultBytes(toolLoop.results) <= T.MAX_RESULT_BYTES
        invariant toolLoop.turnsUsed <= maxTurns && initial <= executions <= initial + toolLoop.turnsUsed
        invariant old(runtime.board.records) <= runtime.board.records
        invariant turns <= 1 + |toolLoop.results| && turns <= 1 + maxTurns + MAX_REFUSALS
        invariant turn == ProviderTurn(env, kind, tick)
        invariant Stands(env, p, maxTurns, kind, w, start, turns - 1, Facing(toolLoop), tick)
        invariant Counts(elapsed, tokens, |toolLoop.results|, env, kind, ticks)
        invariant |ticks| == turns - 1 && Asked(env, kind, start, ticks, tick)
        decreases Measure(maxTurns, toolLoop.Now())
      {
        last := tick;
        StandsNext(env, p, maxTurns, kind, promptBytes, w, start, turns - 1, Facing(toolLoop), tick);
        ResponseCounts(elapsed, tokens, |toolLoop.results|, env, kind, ticks, tick);
        ResponseAsked(env, kind, start, ticks, tick);
        ticks := ticks + [tick];
        TurnExactly(env, kind, tick);
        elapsed := SaturatingSum(elapsed, env.clock(tick));
        if !turn.TurnFailed? && turn.tokens.Some? {
          tokens := Some(SaturatingSum(if tokens.Some? then tokens.value else 0, turn.tokens.value));
        }
        var facts := Facts(elapsed, tokens, |toolLoop.results|);
        if !turn.ToolCalls? || turn.calls == [] || |turn.calls| > T.MAX_CALLS_PER_RESPONSE {
          LeftAsItIs(Facing(toolLoop));
          r := Conclude(env, kind, turn, promptBytes, facts, tick);
          return;
        }
        var end: CallsEnd;
        end, tick, refusals := RunCalls(env, kind, toolLoop, turn.calls, facts, tick, refusals);
        match end
        case Errored(e) => return Err(e), tick, turns, last, ticks;
        case CutOff => return Ok(None), tick, turns, last, ticks;
        case AllDone =>
          FewRefusals(maxTurns, toolLoop.Now(), refusals);
          turn := ProviderTurn(env, kind, tick);
          turns := turns + 1;
      }
    }

    /**
     `run_live_with_context`: provider runs until one is accepted or none is left. Each admission takes
     a candidate, so this ends too. Only a provider other than the deterministic one can succeed, and
     backends execute at most the configured turns for each provider tried.
     */
    method RunLive(env: Environment, r: Reservation, promptBytes: nat, start: U64) returns (result: Result<RunStatus, LiveError>)
      requires runtime.Valid() && runtime.run.status.None? && runtime.run.active.None?
      modifies this, runtime`journal, runtime`report, runtime.board, runtime.run, runtime.run.budget
      ensures runtime.Valid()
      ensures result.Ok? && result.value.Succeeded? ==>
                && result.value.provider != Deterministic && runtime.run.status == Some(result.value)
                && runtime.report.Some? && promptBytes <= 32 * 1024 && Supported(runtime.report.value, Ids(runtime.board.records))
      ensures result == Ok(Exhausted) ==>
                && runtime.run.status == Some(Exhausted) && Ahead(runtime.run.Planned(), runtime.run.Now()) == []
                && runtime.report == old(runtime.report)
                && |runtime.run.attempts| == |old(runtime.run.attempts)| + |old(Ahead(runtime.run.Planned(), runtime.run.Now()))|
                && forall i | |old(runtime.run.attempts)| <= i < |runtime.run.attempts| :: runtime.run.attempts[i].outcome.Failed?
      ensures result == Live(env, runtime.run.Planned(), maxTurns, r, promptBytes, old(Ahead(runtime.run.Planned(), runtime.run.Now())),
                             old(Standing()), 1)
      ensures |old(runtime.run.attempted)| <= |runtime.run.attempted|
      ensures old(executions) <= executions <= old(executions) + maxTurns * (|runtime.run.attempted| - |old(runtime.run.attempted)|)
      ensures old(runtime.board.records) <= runtime.board.records
    {
      hide Live, ProviderRun, Conversation, Tells, FailureOf, AsksTools, Ahead, Consistent, Supported, ProviderTurn, Candidates, Exceeded, Added, AdmitProviderTx, BoardInv, Ids, CommitTx;
      ghost var p, was, initial := runtime.run.Planned(), runtime.Now(), executions;
      ghost var live := Live(env, p, maxTurns, r, promptBytes, Ahead(p, was.state), Standing(), 1);
      var at, tick := start, 0;
      while true
        invariant runtime.Valid() && runtime.run.status.None? && runtime.run.active.None? && runtime.report == was.report
        invariant |runtime.run.attempts| - |was.state.attempts| == |Ahead(p, was.state)| - |Ahead(p, runtime.run.Now())|
        invariant |was.state.attempts| <= |runtime.run.attempts|
        invariant forall i | |was.state.attempts| <= i < |runtime.run.attempts| :: runtime.run.attempts[i].outcome.Failed?
        invariant |was.state.attempted| <= |runtime.run.attempted|
        invariant Live(env, p, maxTurns, r, promptBytes, Ahead(p, runtime.run.Now()), Standing(), tick + 1) == live
        invariant initial <= executions <= initial + maxTurns * (|runtime.run.attempted| - |was.state.attempted|)
        invariant old(runtime.board.records) <= runtime.board.records
        decreases |Ahead(p, runtime.run.Now())|
      {
        ghost var before := runtime.Now();
        AdmitProviderAt(p, before, r, at);
        AdmitsOne(p, before, r, at);
        ghost var left := Standing();
        var admitted := runtime.AdmitProvider(r, at);
        LiveStep(env, p, maxTurns, r, promptBytes, Ahead(p, before.state), left, tick + 1, runtime.run.Now());
        if admitted.Err? { return Err(LiveError.Coordination(admitted.error)); }
        if admitted.value.None? {
          SameProgress(p, before.state, runtime.run.Now());
          return Ok(Exhausted);
        }
        ghost var admittedState := runtime.run.Now();
        MoreTurns(maxTurns, |before.state.attempted| - |was.state.attempted|);
        var ended: Result<Option<RunStatus>, LiveError>;
        ghost var turns: nat;
        ghost var last: nat;
        ghost var ticks: seq<nat>;
        ended, tick, turns, last, ticks := RunProvider(env, admitted.value.value, promptBytes, tick + 1);
        SameProgress(p, admittedState, runtime.run.Now());
        if ended.Err? { return Err(ended.error); }
        if ended.value.Some? { return Ok(ended.value.value); }
        at := env.clock(tick);
      }
    }

    /** A validated report ends the run. */
    method Accept(env: Environment, kind: ProviderKind, report: Report, facts: AttemptFacts, tick: nat) returns (r: Result<Option<RunStatus>, LiveError>)
      requires Running(kind, runtime.Now()) && Supported(report, Ids(runtime.board.records)) && kind != Deterministic
      modifies runtime`journal, runtime`report, runtime.run
      ensures runtime.Valid() && runtime.run.attempted == old(runtime.run.attempted) && runtime.run.active.None?
      ensures runtime.run.status == Some(Succeeded(kind)) && runtime.report == Some(report)
      ensures runtime.run.attempts == old(runtime.run.attempts) + [Attempt(kind, Accepted, facts)]
      ensures r == if env.persists(tick) then Ok(Some(Succeeded(kind))) else Err(JournalError)
    {
      hide Consistent, Supported;
      AnyReport(runtime.run.Planned(), runtime.Now(), Some(report));
      SucceedProviderAt(runtime.run.Planned(), runtime.Now().(report := Some(report)), facts, env.clock(tick));
      var accepted := runtime.SucceedProviderWithReport(kind, report, facts, env.clock(tick));
      if accepted.Err? { return Err(EvidenceError); }
      return if env.persists(tick) then Ok(Some(accepted.value)) else Err(JournalError);
    }

    /** The response that ends a provider's run: a report that fits and validates is accepted, all else a failure. */
    method Conclude(env: Environment, kind: ProviderKind, turn: LiveTurn, promptBytes: nat, facts: AttemptFacts, tick: nat)
      returns (r: Result<Option<RunStatus>, LiveError>)
      requires Running(kind, runtime.Now()) && (kind == Deterministic && turn.Final? ==> turn.report.evidence == [])
      modifies runtime`journal, runtime`report, runtime.run
      ensures runtime.Valid() && runtime.run.attempted == old(runtime.run.attempted) && runtime.run.active.None?
      ensures if AcceptableTurn(turn, promptBytes, runtime.board.records) then
                && kind != Deterministic && runtime.run.status == Some(Succeeded(kind)) && runtime.report == Some(turn.report)
                && runtime.run.attempts == old(runtime.run.attempts) + [Attempt(kind, Accepted, facts)]
                && r == if env.persists(tick) then Ok(Some(Succeeded(kind))) else Err(JournalError)
              else
                && runtime.run.status.None? && runtime.report == old(runtime.report)
                && runtime.run.attempts == old(runtime.run.attempts) + [Attempt(kind, Failed(FailureOf(turn)), facts)]
                && r == if env.persists(tick) then Ok(None) else Err(JournalError)
    {
      hide Consistent, ValidReport, BoardInv, Ids;
      var failed: Option<LiveError>;
      match turn {
        case Final(report, _) =>
          ValidExactly(report, Ids(runtime.board.records));
          if promptBytes <= MAX_PROMPT_BYTES && ValidReport(report, Ids(runtime.board.records)) {
            r := Accept(env, kind, report, facts, tick);
            return;
          }
          failed := FailRun(env, kind, MalformedResponse, facts, tick);
        case ToolCalls(_, _) =>
          failed := FailRun(env, kind, MalformedResponse, facts, tick);
        case TurnFailed(failure) =>
          failed := FailRun(env, kind, failure, facts, tick);
      }
      r := if failed.Some? then Err(failed.value) else Ok(None);
    }
  }

  datatype CallsEnd = AllDone | CutOff | Errored(error: LiveError)

  /** The most refusals whose texts fit the bytes a conversation may retain. */
  const MAX_REFUSALS: nat := T.MAX_RESULT_BYTES / T.SHORTEST_REFUSAL

  function SaturatingSum(a: U64, b: U64): U64 {
    if a + b > U64_MAX then U64_MAX else a + b
  }

  /** The results are counted in 32 bits. */
  function Facts(elapsed: U64, tokens: Option<U64>, results: nat): AttemptFacts {
    AttemptFacts(elapsed, tokens, results % (U32_MAX + 1), None)
  }

  /** The responses of a provider's run, the last one included: every other one asked for tools. */
  ghost predicate Conversation(env: Environment, kind: ProviderKind, start: nat, ticks: seq<nat>, last: nat) {
    && ticks != [] && ticks[0] == start && ticks[|ticks| - 1] == last
    && forall i | 0 <= i < |ticks| - 1 :: AsksTools(ProviderTurn(env, kind, ticks[i]))
  }

  /** The responses before the one at `tick`: all asked for tools. */
  ghost predicate Asked(env: Environment, kind: ProviderKind, start: nat, ticks: seq<nat>, tick: nat) {
    && (if ticks == [] then tick == start else ticks[0] == start)
    && forall i | 0 <= i < |ticks| :: AsksTools(ProviderTurn(env, kind, ticks[i]))
  }

  lemma ResponseAsked(env: Environment, kind: ProviderKind, start: nat, ticks: seq<nat>, tick: nat)
    requires Asked(env, kind, start, ticks, tick)
    ensures Conversation(env, kind, start, ticks + [tick], tick)
    ensures AsksTools(ProviderTurn(env, kind, tick)) ==> forall next :: Asked(env, kind, start, ticks + [tick], next)
  {
    hide ProviderTurn, AsksTools;
  }

  /** What a provider's run has counted up to here. */
  ghost predicate Counts(elapsed: U64, tokens: Option<U64>, results: nat, env: Environment, kind: ProviderKind, ticks: seq<nat>) {
    && elapsed == Capped(TotalTime(env, ticks)) && results == TotalCalls(env, kind, ticks)
    && var used := TotalTokens(env, kind, ticks);
       tokens == if used.None? then None else Some(Capped(used.value))
  }

  lemma NothingYet(env: Environment, kind: ProviderKind, start: nat)
    ensures Counts(0, None, 0, env, kind, []) && Asked(env, kind, start, [], start)
  {
  }

  /** One more response: what is counted then, and the facts an attempt ending with it records. */
  lemma ResponseCounts(elapsed: U64, tokens: Option<U64>, results: nat, env: Environment, kind: ProviderKind, ticks: seq<nat>, tick: nat)
    requires Counts(elapsed, tokens, results, env, kind, ticks)
    ensures var turn := ProviderTurn(env, kind, tick);
            var later := SaturatingSum(elapsed, env.clock(tick));
            var used := if turn.TurnFailed? || turn.tokens.None? then tokens
                        else Some(SaturatingSum(if tokens.Some? then tokens.value else 0, turn.tokens.value));
            && Counts(later, used, results + (if turn.ToolCalls? then |turn.calls| else 0), env, kind, ticks + [tick])
            && Tells(Facts(later, used, results), env, kind, ticks + [tick])
  {
    hide ProviderTurn, TotalTime, TotalCalls, TotalTokens, SaturatingSum, Capped;
    ResponseAdds(env, kind, ticks, tick);
    CappedSums(TotalTime(env, ticks), env.clock(tick));
    var turn := ProviderTurn(env, kind, tick);
    var total := TotalTokens(env, kind, ticks);
    if !turn.TurnFailed? && turn.tokens.Some? {
      CappedSums(if total.Some? then total.value else 0, turn.tokens.value);
      CappedNothing();
    }
  }

  lemma CappedNothing()
    ensures Capped(0) == 0
  {
  }

  /** One failed attempt of the provider was recorded. */
  ghost predicate FailedNext(kind: ProviderKind, was: seq<Attempt>, now: seq<Attempt>) {
    |now| == |was| + 1 && now[..|was|] == was && now[|was|].provider == kind && now[|was|].outcome.Failed?
  }

  lemma FreshAccounted(maxTurns: nat, s: T.LoopState)
    requires s == T.FRESH
    ensures Accounted(maxTurns, s, 0) && T.ResultBytes(s.results) == 0
  {
  }

  lemma AccountedTurns(maxTurns: nat, s: T.LoopState, refusals: nat)
    requires Accounted(maxTurns, s, refusals)
    ensures s.turnsUsed <= maxTurns
  {
  }

  lemma MoreTurns(maxTurns: nat, n: int)
    ensures maxTurns * (n + 1) == maxTurns * n + maxTurns
  {
  }

  /** An admission attempts at most one more provider. */
  lemma AdmitsOne(p: Plan, v: View, r: Reservation, at: U64)
    requires Consistent(p, v) && v.state.status.None? && v.state.active.None?
    ensures var (result, t) := AdmitProviderTx(p, v, r, at);
            && (result.Ok? && result.value.Some? ==> |t.state.attempted| == |v.state.attempted| + 1)
            && (result.Ok? && result.value.None? ==> t.state.attempted == v.state.attempted)
            && (result.Err? ==> t.state == v.state)
  {
    hide Inv, Candidates, Next, Exceeded, Added;
    NextIsCandidate(p, v.state);
    ProgressOf(p, v.state);
  }

  lemma FewRefusals(maxTurns: nat, s: T.LoopState, refusals: nat)
    requires Accounted(maxTurns, s, refusals) && T.ResultBytes(s.results) <= T.MAX_RESULT_BYTES
    ensures refusals <= MAX_REFUSALS && |s.results| <= maxTurns + MAX_REFUSALS
  {
  }

  lemma QueryStaysValid(p: Plan, v: View)
    requires Consistent(p, v)
    ensures Consistent(p, v.(state := QueryTx(p, v.state).1))
  {
    hide Inv;
    ApplyKeepsInv(p, v.state, Query);
  }
}
