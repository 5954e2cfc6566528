/** One provider's finite conversation with the read-only tools (src/reasoning/tools.rs). */
module ToolLoop {
  import opened Outcomes
  import Text

  const MAX_CALLS_PER_RESPONSE: nat := 8
  const MAX_RESULT_BYTES: nat := 64 * 1024

  datatype ToolCall = ToolCall(callId: string, tool: string, query: string)

  datatype ToolResultClass = Succeeded | Denied | Truncated | Stale | Exhausted | Unavailable

  datatype ToolResult = ToolResult(callId: string, class_: ToolResultClass, evidence: Option<string>, detail: string)

  /** The refusals `admit` can return. */
  datatype ToolLoopError = EmptyCallId | EmptyQuery | DuplicateCallId | TurnLimit

  /** The refusal's text, which becomes the result's detail. */
  function Message(e: ToolLoopError): string {
    match e
    case EmptyCallId => "tool call identifier is empty"
    case EmptyQuery => "tool query is empty"
    case DuplicateCallId => "tool call identifier was already used in this run"
    case TurnLimit => "tool turn budget exhausted"
  }

  datatype LoopState = LoopState(turnsUsed: nat, results: seq<ToolResult>, seen: set<string>)

  const FRESH: LoopState := LoopState(0, [], {})

  function AdmitTx(maxTurns: nat, s: LoopState, call: ToolCall): (Option<ToolLoopError>, LoopState) {
    if Text.Blank(call.callId) then (Some(EmptyCallId), s)
    else if Text.Blank(call.query) then (Some(EmptyQuery), s)
    else if s.turnsUsed >= maxTurns then (Some(TurnLimit), s)
    else if call.callId in s.seen then (Some(DuplicateCallId), s)
    else (None, s.(turnsUsed := s.turnsUsed + 1, seen := s.seen + {call.callId}))
  }

  function ResultBytes(results: seq<ToolResult>): nat {
    if results == [] then 0 else ResultBytes(results[..|results| - 1]) + Text.Utf8Length(results[|results| - 1].detail)
  }

  lemma ResultBytesAppend(results: seq<ToolResult>, r: ToolResult)
    ensures ResultBytes(results + [r]) == ResultBytes(results) + Text.Utf8Length(r.detail)
  {
    assert (results + [r])[..|results|] == results;
  }

  class ToolLoop {
    const maxTurns: nat
    var turnsUsed: nat
    var results: seq<ToolResult>
    var seen: set<string>

    ghost function Now(): LoopState
      reads this
    {
      LoopState(turnsUsed, results, seen)
    }

    constructor (maxTurns: nat)
      ensures this.maxTurns == maxTurns && Now() == FRESH
    {
      this.maxTurns, turnsUsed, results, seen := maxTurns, 0, [], {};
    }

    method Admit(call: ToolCall) returns (r: Option<ToolLoopError>)
      modifies this
      ensures (r, Now()) == AdmitTx(maxTurns, old(Now()), call)
    {
      if Text.Blank(call.callId) { return Some(EmptyCallId); }
      if Text.Blank(call.query) { return Some(EmptyQuery); }
      if turnsUsed >= maxTurns { return Some(TurnLimit); }
      if call.callId in seen { return Some(DuplicateCallId); }
      seen := seen + {call.callId};
      turnsUsed := turnsUsed + 1;
      return None;
    }

    method RecordResult(result: ToolResult)
      modifies this
      ensures Now() == old(Now()).(results := old(results) + [result])
    {
      results := results + [result];
    }

    method SumResultBytes() returns (bytes: nat)
      ensures bytes == ResultBytes(results)
    {
      bytes := 0;
      for i := 0 to |results|
        invariant bytes == ResultBytes(results[..i])
      {
        assert results[..i + 1][..i] == results[..i];
        bytes := bytes + Text.Utf8Length(results[i].detail);
      }
      assert results[..|results|] == results;
    }
  }

  /** The bytes of the shortest refusal text. */
  const SHORTEST_REFUSAL: nat := 19

  /**
   Admission uses exactly one turn and a fresh identifier, or refuses and changes nothing. An
   identifier is admitted once per loop and the turns never exceed the policy.
   */
  lemma AdmitUsesATurn(maxTurns: nat, s: LoopState, call: ToolCall)
    requires |s.seen| == s.turnsUsed <= maxTurns
    ensures var (e, t) := AdmitTx(maxTurns, s, call);
            && |t.seen| == t.turnsUsed <= maxTurns && t.results == s.results
            && (e.None? ==> t.turnsUsed == s.turnsUsed + 1 && call.callId !in s.seen && call.callId in t.seen)
            && (e.Some? ==> t == s)
            && (e == Some(TurnLimit) ==> s.turnsUsed == maxTurns)
  {
  }

  ghost predicate Shows(text: string) {
    exists i | 0 <= i < |text| :: !Text.IsWhitespace(text[i])
  }

  /**
   A call is admitted if and only if identifier and query show something, a turn is left and the
   identifier is new; the refusals come in that order, and only an admission uses anything.
   */
  lemma AdmitsExactly(maxTurns: nat, s: LoopState, call: ToolCall)
    ensures var (e, t) := AdmitTx(maxTurns, s, call);
            && (e == Some(EmptyCallId) <==> !Shows(call.callId))
            && (e == Some(EmptyQuery) <==> Shows(call.callId) && !Shows(call.query))
            && (e == Some(TurnLimit) <==> Shows(call.callId) && Shows(call.query) && s.turnsUsed >= maxTurns)
            && (e == Some(DuplicateCallId) <==> Shows(call.callId) && Shows(call.query) && s.turnsUsed < maxTurns && call.callId in s.seen)
            && t == (if e.Some? then s else LoopState(s.turnsUsed + 1, s.results, s.seen + {call.callId}))
  {
  }
}
