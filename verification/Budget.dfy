/** The incident budget of one reasoning run (src/reasoning/budget.rs). Counters wrap as a release build's do. */
module Budget {
  import opened Outcomes

  const U32_MAX: int := 0xFFFF_FFFF
  const U64_MAX: int := 0xFFFF_FFFF_FFFF_FFFF

  type U32 = n: int | 0 <= n <= 0xFFFF_FFFF
  type U64 = n: int | 0 <= n <= 0xFFFF_FFFF_FFFF_FFFF

  datatype Config = Config(maxCalls: U32, maxTokens: U64, maxQueries: U32, maxCost: Option<U64>)

  datatype Reservation = Reservation(calls: U32, tokens: U64, queries: U32, cost: U64)

  datatype Totals = Totals(calls: U32, tokens: U64, queries: U32, cost: U64)

  datatype BudgetError = ProviderCalls | Tokens | EvidenceQueries | Cost

  const NOTHING: Totals := Totals(0, 0, 0, 0)

  function Saturated(a: int, b: int, max: int): int {
    if a + b > max then max else a + b
  }

  /** The first ceiling a reservation would exceed. */
  function Exceeded(c: Config, t: Totals, r: Reservation): Option<BudgetError> {
    if Saturated(t.calls, r.calls, U32_MAX) > c.maxCalls then Some(ProviderCalls)
    else if Saturated(t.tokens, r.tokens, U64_MAX) > c.maxTokens then Some(Tokens)
    else if Saturated(t.queries, r.queries, U32_MAX) > c.maxQueries then Some(EvidenceQueries)
    else if c.maxCost.Some? && Saturated(t.cost, r.cost, U64_MAX) > c.maxCost.value then Some(Cost)
    else None
  }

  function Added(t: Totals, r: Reservation): Totals {
    Totals((t.calls + r.calls) % (U32_MAX + 1), (t.tokens + r.tokens) % (U64_MAX + 1),
           (t.queries + r.queries) % (U32_MAX + 1), (t.cost + r.cost) % (U64_MAX + 1))
  }

  function Reserved(c: Config, t: Totals, r: Reservation): Totals {
    if Exceeded(c, t, r).Some? then t else Added(t, r)
  }

  class BudgetState {
    const config: Config
    var calls: U32
    var tokens: U64
    var queries: U32
    var cost: U64

    ghost function Spent(): Totals
      reads this
    {
      Totals(calls, tokens, queries, cost)
    }

    constructor (config: Config)
      ensures this.config == config && Spent() == NOTHING
    {
      this.config, calls, tokens, queries, cost := config, 0, 0, 0, 0;
    }

    /** Checks every ceiling before changing any counter. */
    method Reserve(r: Reservation) returns (result: Result<(), BudgetError>)
      modifies this
      ensures Spent() == Reserved(config, old(Spent()), r)
      ensures match Exceeded(config, old(Spent()), r) case None => result == Ok(()) case Some(e) => result == Err(e)
    {
      if Saturated(calls, r.calls, U32_MAX) > config.maxCalls { return Err(ProviderCalls); }
      if Saturated(tokens, r.tokens, U64_MAX) > config.maxTokens { return Err(Tokens); }
      if Saturated(queries, r.queries, U32_MAX) > config.maxQueries { return Err(EvidenceQueries); }
      if config.maxCost.Some? && Saturated(cost, r.cost, U64_MAX) > config.maxCost.value { return Err(Cost); }
      calls := (calls + r.calls) % (U32_MAX + 1);
      tokens := (tokens + r.tokens) % (U64_MAX + 1);
      queries := (queries + r.queries) % (U32_MAX + 1);
      cost := (cost + r.cost) % (U64_MAX + 1);
      return Ok(());
    }
  }

  /** Every ceiling is set, and below what its counter can hold. */
  predicate Bounded(c: Config) {
    c.maxCalls < U32_MAX && c.maxTokens < U64_MAX && c.maxQueries < U32_MAX && c.maxCost.Some? && c.maxCost.value < U64_MAX
  }

  predicate Within(c: Config, t: Totals) {
    t.calls <= c.maxCalls && t.tokens <= c.maxTokens && t.queries <= c.maxQueries && (c.maxCost.Some? ==> t.cost <= c.maxCost.value)
  }

  lemma Wraps(a: int, m: int)
    requires 0 <= a < 2 * m
    ensures a % m == if a < m then a else a - m
  {
  }

  /**
   Overflow, exactly: an accepted reservation adds to a counter without wrapping if and only if that
   counter's ceiling is set below the type's maximum or the sum fits.
   */
  lemma AddsExactly(c: Config, t: Totals, r: Reservation)
    requires Exceeded(c, t, r).None?
    ensures Reserved(c, t, r).calls == t.calls + r.calls <==> (c.maxCalls < U32_MAX || t.calls + r.calls <= U32_MAX)
    ensures Reserved(c, t, r).tokens == t.tokens + r.tokens <==> (c.maxTokens < U64_MAX || t.tokens + r.tokens <= U64_MAX)
    ensures Reserved(c, t, r).queries == t.queries + r.queries <==> (c.maxQueries < U32_MAX || t.queries + r.queries <= U32_MAX)
    ensures Reserved(c, t, r).cost == t.cost + r.cost <==> ((c.maxCost.Some? && c.maxCost.value < U64_MAX) || t.cost + r.cost <= U64_MAX)
  {
    Wraps(t.calls + r.calls, U32_MAX + 1);
    Wraps(t.tokens + r.tokens, U64_MAX + 1);
    Wraps(t.queries + r.queries, U32_MAX + 1);
    Wraps(t.cost + r.cost, U64_MAX + 1);
  }

  /** Under bounded ceilings a reservation is accepted exactly when all four sums stay within them. */
  lemma AcceptedExactly(c: Config, t: Totals, r: Reservation)
    requires Bounded(c) && Within(c, t)
    ensures Exceeded(c, t, r).None? <==>
              t.calls + r.calls <= c.maxCalls && t.tokens + r.tokens <= c.maxTokens
              && t.queries + r.queries <= c.maxQueries && t.cost + r.cost <= c.maxCost.value
    ensures Within(c, Reserved(c, t, r))
  {
    if Exceeded(c, t, r).None? {
      AddsExactly(c, t, r);
    }
  }

  function ReserveAll(c: Config, t: Totals, rs: seq<Reservation>): Totals
    decreases |rs|
  {
    if rs == [] then t else ReserveAll(c, Reserved(c, t, rs[0]), rs[1..])
  }

  /** The reservations that were accepted, in order. */
  function Accepted(c: Config, t: Totals, rs: seq<Reservation>): seq<Reservation>
    decreases |rs|
  {
    if rs == [] then []
    else (if Exceeded(c, t, rs[0]).None? then [rs[0]] else []) + Accepted(c, Reserved(c, t, rs[0]), rs[1..])
  }

  // ---- Which configurations can wrap ----

  /** The reservation, if accepted after these, leaves the counter the plain sum. */
  predicate CallsAdd(c: Config, rs: seq<Reservation>, r: Reservation) {
    var t := ReserveAll(c, NOTHING, rs);
    Exceeded(c, t, r).None? ==> Reserved(c, t, r).calls == t.calls + r.calls
  }

  predicate TokensAdd(c: Config, rs: seq<Reservation>, r: Reservation) {
    var t := ReserveAll(c, NOTHING, rs);
    Exceeded(c, t, r).None? ==> Reserved(c, t, r).tokens == t.tokens + r.tokens
  }

  predicate QueriesAdd(c: Config, rs: seq<Reservation>, r: Reservation) {
    var t := ReserveAll(c, NOTHING, rs);
    Exceeded(c, t, r).None? ==> Reserved(c, t, r).queries == t.queries + r.queries
  }

  predicate CostAdds(c: Config, rs: seq<Reservation>, r: Reservation) {
    var t := ReserveAll(c, NOTHING, rs);
    Exceeded(c, t, r).None? ==> Reserved(c, t, r).cost == t.cost + r.cost
  }

  /** Two accepted reservations, of the type's maximum and of one, bring the counter back to zero. */
  lemma WrapsAtMaximum(c: Config, first: Reservation, second: Reservation)
    requires Exceeded(c, NOTHING, first).None? && Exceeded(c, Added(NOTHING, first), second).None?
    ensures ReserveAll(c, NOTHING, [first]) == Added(NOTHING, first)
    ensures first.calls == U32_MAX && second.calls == 1 ==> !CallsAdd(c, [first], second)
    ensures first.tokens == U64_MAX && second.tokens == 1 ==> !TokensAdd(c, [first], second)
    ensures first.queries == U32_MAX && second.queries == 1 ==> !QueriesAdd(c, [first], second)
    ensures first.cost == U64_MAX && second.cost == 1 ==> !CostAdds(c, [first], second)
  {
    assert [first][1..] == [];
  }

  /**
   Each counter adds up in every history of accepted reservations if and only if its ceiling is set
   below what the counter can hold.
   */
  lemma NeverWrapsExactly(c: Config)
    ensures (forall rs: seq<Reservation>, r: Reservation :: CallsAdd(c, rs, r)) <==> c.maxCalls < U32_MAX
    ensures (forall rs: seq<Reservation>, r: Reservation :: TokensAdd(c, rs, r)) <==> c.maxTokens < U64_MAX
    ensures (forall rs: seq<Reservation>, r: Reservation :: QueriesAdd(c, rs, r)) <==> c.maxQueries < U32_MAX
    ensures (forall rs: seq<Reservation>, r: Reservation :: CostAdds(c, rs, r)) <==> c.maxCost.Some? && c.maxCost.value < U64_MAX
  {
    hide ReserveAll, CallsAdd, TokensAdd, QueriesAdd, CostAdds;
    forall rs: seq<Reservation>, r: Reservation
      ensures c.maxCalls < U32_MAX ==> CallsAdd(c, rs, r)
      ensures c.maxTokens < U64_MAX ==> TokensAdd(c, rs, r)
      ensures c.maxQueries < U32_MAX ==> QueriesAdd(c, rs, r)
      ensures c.maxCost.Some? && c.maxCost.value < U64_MAX ==> CostAdds(c, rs, r)
    {
      LowCeilingsAdd(c, rs, r);
    }
    if c.maxCalls == U32_MAX {
      WrapsAtMaximum(c, Reservation(U32_MAX, 0, 0, 0), Reservation(1, 0, 0, 0));
    }
    if c.maxTokens == U64_MAX {
      WrapsAtMaximum(c, Reservation(0, U64_MAX, 0, 0), Reservation(0, 1, 0, 0));
    }
    if c.maxQueries == U32_MAX {
      WrapsAtMaximum(c, Reservation(0, 0, U32_MAX, 0), Reservation(0, 0, 1, 0));
    }
    if c.maxCost.None? || c.maxCost.value == U64_MAX {
      WrapsAtMaximum(c, Reservation(0, 0, 0, U64_MAX), Reservation(0, 0, 0, 1));
    }
  }

  lemma LowCeilingsAdd(c: Config, rs: seq<Reservation>, r: Reservation)
    ensures c.maxCalls < U32_MAX ==> CallsAdd(c, rs, r)
    ensures c.maxTokens < U64_MAX ==> TokensAdd(c, rs, r)
    ensures c.maxQueries < U32_MAX ==> QueriesAdd(c, rs, r)
    ensures c.maxCost.Some? && c.maxCost.value < U64_MAX ==> CostAdds(c, rs, r)
  {
    var t := ReserveAll(c, NOTHING, rs);
    if Exceeded(c, t, r).None? {
      AddsExactly(c, t, r);
    }
  }

  /** Without a cost ceiling, two accepted reservations leave a cost of zero. */
  lemma UnboundedCostWraps(c: Config)
    requires c.maxCost.None?
    ensures var all, one := Reservation(0, 0, 0, U64_MAX), Reservation(0, 0, 0, 1);
            && Accepted(c, NOTHING, [all, one]) == [all, one] && ReserveAll(c, NOTHING, [all, one]).cost == 0
  {
    var all, one := Reservation(0, 0, 0, U64_MAX), Reservation(0, 0, 0, 1);
    var t := Reserved(c, NOTHING, all);
    assert t == Totals(0, 0, 0, U64_MAX);
    assert Reserved(c, t, one).cost == 0;
    assert [all, one][1..] == [one] && [one][1..] == [];
    assert Accepted(c, t, [one]) == [one] && ReserveAll(c, t, [one]) == Reserved(c, t, one);
  }

  datatype Sums = Sums(calls: int, tokens: int, queries: int, cost: int)

  /** Plain, unbounded sums. */
  function Total(rs: seq<Reservation>): Sums {
    if rs == [] then Sums(0, 0, 0, 0) else
    var s := Total(rs[1..]);
    Sums(rs[0].calls + s.calls, rs[0].tokens + s.tokens, rs[0].queries + s.queries, rs[0].cost + s.cost)
  }

  /** Over any calls, the counters are the plain sums of the accepted reservations and stay within every ceiling. */
  lemma {:induction false} TotalsAreSums(c: Config, t: Totals, rs: seq<Reservation>)
    requires Bounded(c) && Within(c, t)
    ensures var u, s := ReserveAll(c, t, rs), Total(Accepted(c, t, rs));
            && Within(c, u)
            && u.calls == t.calls + s.calls && u.tokens == t.tokens + s.tokens
            && u.queries == t.queries + s.queries && u.cost == t.cost + s.cost
    decreases |rs|
  {
    if rs != [] {
      hide Exceeded, Added;
      var next, rest := Reserved(c, t, rs[0]), Accepted(c, Reserved(c, t, rs[0]), rs[1..]);
      AcceptedExactly(c, t, rs[0]);
      if Exceeded(c, t, rs[0]).None? {
        AddsExactly(c, t, rs[0]);
        assert ([rs[0]] + rest)[1..] == rest;
      } else {
        assert Accepted(c, t, rs) == rest;
      }
      TotalsAreSums(c, next, rs[1..]);
    }
  }

  /** The sum passes a ceiling below the counter's maximum; a ceiling at the maximum refuses nothing. */
  ghost predicate Over(used: int, more: int, ceiling: int, max: int) {
    ceiling < max && used + more > ceiling
  }

  /** A refusal names the first counter whose ceiling would be passed: calls, tokens, queries, cost. */
  lemma RefusesExactly(c: Config, t: Totals, r: Reservation)
    ensures var (calls, tokens, queries, cost) := (
              Over(t.calls, r.calls, c.maxCalls, 0xFFFF_FFFF), Over(t.tokens, r.tokens, c.maxTokens, 0xFFFF_FFFF_FFFF_FFFF),
              Over(t.queries, r.queries, c.maxQueries, 0xFFFF_FFFF),
              c.maxCost.Some? && Over(t.cost, r.cost, c.maxCost.value, 0xFFFF_FFFF_FFFF_FFFF));
            && (Exceeded(c, t, r) == Some(ProviderCalls) <==> calls)
            && (Exceeded(c, t, r) == Some(Tokens) <==> !calls && tokens)
            && (Exceeded(c, t, r) == Some(EvidenceQueries) <==> !calls && !tokens && queries)
            && (Exceeded(c, t, r) == Some(Cost) <==> !calls && !tokens && !queries && cost)
            && (Exceeded(c, t, r).Some? ==> Reserved(c, t, r) == t)
  {
  }
}
