/**
 The durable cost ledger (reserve_cost and reconcile_cost in src/reasoning/storage.rs). Each call is
 one transaction over three tables: an error leaves all of them as they were.
 */
module CostLedger {
  import opened Outcomes

  const MAX: int := 0x7FFF_FFFF_FFFF_FFFF

  /** An integer column: SQLite leaves the 64-bit integers when a sum does not fit them. */
  datatype Cell = Known(value: int) | Overflowed

  datatype Ledger = Ledger(ceiling: nat, reserved: Cell)

  datatype Reservation = Reservation(amount: nat, actual: Option<nat>, createdAt: nat)

  datatype Tables = Tables(ledgers: map<string, Ledger>, reservations: map<string, Reservation>, links: set<(string, string)>)

  datatype StoreError = Sqlite | BudgetExhausted | ReservationNotFound

  const EMPTY: Tables := Tables(map[], map[], {})

  function Plus(c: Cell, n: int): Cell {
    if c.Known? && -MAX - 1 <= c.value + n <= MAX then Known(c.value + n) else Overflowed
  }

  function SaturatingAdd(a: int, b: int): int {
    if a + b > MAX then MAX else if a + b < -MAX - 1 then -MAX - 1 else a + b
  }

  // ---- reserve_cost ----

  /** The error of the first scope that refuses the amount. */
  function Refusal(ledgers: map<string, Ledger>, amount: nat, scopes: seq<(string, nat)>): Option<StoreError> {
    if scopes == [] then None else
    var (scope, ceiling) := scopes[0];
    if ceiling > MAX then Some(Sqlite)
    else if scope in ledgers && ledgers[scope].reserved.Overflowed? then Some(Sqlite)
    else if SaturatingAdd(if scope in ledgers then ledgers[scope].reserved.value else 0, amount) > ceiling then Some(BudgetExhausted)
    else Refusal(ledgers, amount, scopes[1..])
  }

  function Charge(t: Tables, id: string, amount: nat, scope: string, ceiling: nat): Tables {
    t.(ledgers := t.ledgers[scope := if scope in t.ledgers then
                                       t.ledgers[scope].(reserved := Plus(t.ledgers[scope].reserved, amount))
                                     else Ledger(ceiling, Known(amount))],
    links := t.links + {(id, scope)})
  }

  /** Charging every scope in turn; a scope named twice breaks the primary key of the links. */
  function ChargeAll(t: Tables, id: string, amount: nat, scopes: seq<(string, nat)>): Option<Tables>
    decreases |scopes|
  {
    if scopes == [] then Some(t) else
    var (scope, ceiling) := scopes[0];
    if (id, scope) in t.links then None else ChargeAll(Charge(t, id, amount, scope, ceiling), id, amount, scopes[1..])
  }

  function ReserveTx(t: Tables, id: string, amount: nat, scopes: seq<(string, nat)>, createdAt: nat): (Result<(), StoreError>, Tables) {
    if id in t.reservations then (Ok(()), t) else
    if amount > MAX then (Err(Sqlite), t) else
    match Refusal(t.ledgers, amount, scopes)
    case Some(e) => (Err(e), t)
    case None =>
      var row := Reservation(amount, None, if createdAt > MAX then MAX else createdAt);
      match ChargeAll(t.(reservations := t.reservations[id := row]), id, amount, scopes)
      case None => (Err(Sqlite), t)
      case Some(charged) => (Ok(()), charged)
  }

  // ---- reconcile_cost ----

  function ScopesOf(t: Tables, id: string): set<string> {
    set link | link in t.links && link.0 == id :: link.1
  }

  function Moved(ledgers: map<string, Ledger>, scopes: set<string>, amount: nat, actual: nat): map<string, Ledger> {
    map s | s in ledgers :: if s in scopes then ledgers[s].(reserved := Plus(Plus(ledgers[s].reserved, 0 - amount), actual)) else ledgers[s]
  }

  function ReconcileTx(t: Tables, id: string, actual: Option<nat>): (Result<bool, StoreError>, Tables) {
    if actual.None? then (Ok(false), t) else
    if id !in t.reservations then (Err(ReservationNotFound), t) else
    var row := t.reservations[id];
    if row.actual.Some? then (Ok(false), t) else
    if actual.value > MAX then (Err(Sqlite), t) else
    (Ok(true), t.(ledgers := Moved(t.ledgers, ScopesOf(t, id), row.amount, actual.value),
                  reservations := t.reservations[id := row.(actual := actual)]))
  }

  /** The tables behind one connection; a transaction works on copies and commits them together. */
  class LedgerStore {
    var ledgers: map<string, Ledger>
    var reservations: map<string, Reservation>
    var links: set<(string, string)>

    ghost function Contents(): Tables
      reads this
    {
      Tables(ledgers, reservations, links)
    }

    constructor ()
      ensures Contents() == EMPTY
    {
      ledgers, reservations, links := map[], map[], {};
    }

    method ReserveCost(id: string, amount: nat, scopes: seq<(string, nat)>, createdAt: nat) returns (r: Result<(), StoreError>)
      modifies this
      ensures (r, Contents()) == ReserveTx(old(Contents()), id, amount, scopes, createdAt)
    {
      hide Refusal, ChargeAll;
      if id in reservations { return Ok(()); }
      if amount > MAX { return Err(Sqlite); }
      var refused := CheckScopes(amount, scopes);
      if refused.Some? { return Err(refused.value); }
      var rows := reservations[id := Reservation(amount, None, if createdAt > MAX then MAX else createdAt)];
      var charged, newLedgers, newLinks := ChargeScopes(rows, id, amount, scopes);
      if !charged { return Err(Sqlite); }
      ledgers, reservations, links := newLedgers, rows, newLinks;
      return Ok(());
    }

    method CheckScopes(amount: nat, scopes: seq<(string, nat)>) returns (r: Option<StoreError>)
      ensures r == Refusal(ledgers, amount, scopes)
    {
      for i := 0 to |scopes|
        invariant Refusal(ledgers, amount, scopes) == Refusal(ledgers, amount, scopes[i..])
      {
        var (scope, ceiling) := scopes[i];
        if ceiling > MAX { return Some(Sqlite); }
        var reserved := if scope in ledgers then ledgers[scope].reserved else Known(0);
        if reserved.Overflowed? { return Some(Sqlite); }
        if SaturatingAdd(reserved.value, amount) > ceiling { return Some(BudgetExhausted); }
      }
      return None;
    }

    method ChargeScopes(rows: map<string, Reservation>, id: string, amount: nat, scopes: seq<(string, nat)>)
      returns (ok: bool, newLedgers: map<string, Ledger>, newLinks: set<(string, string)>)
      ensures ChargeAll(Tables(ledgers, rows, links), id, amount, scopes)
              == if ok then Some(Tables(newLedgers, rows, newLinks)) else None
    {
      newLedgers, newLinks := ledgers, links;
      for i := 0 to |scopes|
        invariant ChargeAll(Tables(ledgers, rows, links), id, amount, scopes)
                  == ChargeAll(Tables(newLedgers, rows, newLinks), id, amount, scopes[i..])
      {
        var (scope, ceiling) := scopes[i];
        if (id, scope) in newLinks { return false, newLedgers, newLinks; }
        if scope in newLedgers {
          newLedgers := newLedgers[scope := newLedgers[scope].(reserved := Plus(newLedgers[scope].reserved, amount))];
        } else {
          newLedgers := newLedgers[scope := Ledger(ceiling, Known(amount))];
        }
        newLinks := newLinks + {(id, scope)};
      }
      return true, newLedgers, newLinks;
    }

    method ReconcileCost(id: string, actual: Option<nat>) returns (r: Result<bool, StoreError>)
      modifies this
      ensures (r, Contents()) == ReconcileTx(old(Contents()), id, actual)
    {
      if actual.None? { return Ok(false); }
      if id !in reservations { return Err(ReservationNotFound); }
      var row := reservations[id];
      if row.actual.Some? { return Ok(false); }
      if actual.value > MAX { return Err(Sqlite); }
      var scopes := ScopesOf(Tables(ledgers, reservations, links), id);
      ledgers := MoveScopes(ledgers, scopes, row.amount, actual.value);
      reservations := reservations[id := row.(actual := actual)];
      return Ok(true);
    }

    /** One UPDATE per scope; whatever the order of the rows, the result is the same. */
    static method MoveScopes(was: map<string, Ledger>, scopes: set<string>, amount: nat, actual: nat) returns (now: map<string, Ledger>)
      ensures now == Moved(was, scopes, amount, actual)
    {
      now := was;
      var rest := scopes;
      while rest != {}
        invariant rest <= scopes
        invariant now == Moved(was, scopes - rest, amount, actual)
        decreases |rest|
      {
        var s :| s in rest;
        if s in now {
          now := now[s := now[s].(reserved := Plus(Plus(now[s].reserved, 0 - amount), actual))];
        }
        rest := rest - {s};
      }
    }
  }

  // ---- Sums over reservations ----

  ghost function Sum(ids: set<string>, f: string -> int): int {
    if ids == {} then 0 else
    var id :| id in ids;
    f(id) + Sum(ids - {id}, f)
  }

  lemma {:induction false} SumRemove(ids: set<string>, f: string -> int, id: string)
    requires id in ids
    ensures Sum(ids, f) == f(id) + Sum(ids - {id}, f)
    decreases ids
  {
    var first :| first in ids && Sum(ids, f) == f(first) + Sum(ids - {first}, f);
    if first != id {
      SumRemove(ids - {first}, f, id);
      SumRemove(ids - {id}, f, first);
      assert ids - {first} - {id} == ids - {id} - {first};
    }
  }

  lemma {:induction false} SumSame(ids: set<string>, f: string -> int, g: string -> int)
    requires forall id | id in ids :: f(id) == g(id)
    ensures Sum(ids, f) == Sum(ids, g)
    decreases ids
  {
    if ids != {} {
      var id :| id in ids;
      SumRemove(ids, f, id);
      SumRemove(ids, g, id);
      SumSame(ids - {id}, f, g);
    }
  }

  lemma {:induction false} SumBounds(ids: set<string>, f: string -> int)
    requires forall id | id in ids :: f(id) >= 0
    ensures Sum(ids, f) >= 0
    ensures forall id | id in ids :: f(id) <= Sum(ids, f)
    decreases ids
  {
    forall id | id in ids ensures 0 <= f(id) <= Sum(ids, f) {
      SumRemove(ids, f, id);
      SumBounds(ids - {id}, f);
    }
  }

  /** What a reservation counts for: its actual cost once known, its worst case until then. */
  function Counted(r: Reservation): nat {
    if r.actual.Some? then r.actual.value else r.amount
  }

  function Share(t: Tables, scope: string): string -> int {
    id => if id in t.reservations && (id, scope) in t.links then Counted(t.reservations[id]) else 0
  }

  /** The scope's linked reservations, each by what it counts for. */
  ghost function Owed(t: Tables, scope: string): int {
    Sum(t.reservations.Keys, Share(t, scope))
  }

  lemma SumChange(ids: set<string>, f: string -> int, g: string -> int, id: string)
    requires id in ids && forall i | i in ids && i != id :: f(i) == g(i)
    ensures Sum(ids, g) == Sum(ids, f) - f(id) + g(id)
  {
    SumRemove(ids, f, id);
    SumRemove(ids, g, id);
    SumSame(ids - {id}, f, g);
  }

  lemma {:induction false} SumZero(ids: set<string>, f: string -> int)
    requires forall id | id in ids :: f(id) == 0
    ensures Sum(ids, f) == 0
    decreases ids
  {
    if ids != {} {
      var id :| id in ids;
      SumRemove(ids, f, id);
      SumZero(ids - {id}, f);
    }
  }

  // ---- Conservation over every run ----

  ghost predicate Linked(t: Tables) {
    forall id, scope | (id, scope) in t.links :: id in t.reservations && scope in t.ledgers
  }

  /** Every ledger holds exactly what its linked reservations count for, unless its sum left 64 bits. */
  ghost predicate Conserved(t: Tables) {
    Linked(t) && forall scope | scope in t.ledgers && t.ledgers[scope].reserved.Known? :: t.ledgers[scope].reserved.value == Owed(t, scope)
  }

  datatype Op = Reserve(id: string, amount: nat, scopes: seq<(string, nat)>, at: nat) | Reconcile(id: string, actual: Option<nat>)

  function Apply(t: Tables, op: Op): Tables {
    match op
    case Reserve(id, amount, scopes, at) => ReserveTx(t, id, amount, scopes, at).1
    case Reconcile(id, actual) => ReconcileTx(t, id, actual).1
  }

  /** A run; a crash or a failed transaction leaves the tables as they were, so neither is a step. */
  function Run(t: Tables, ops: seq<Op>): Tables
    decreases |ops|
  {
    if ops == [] then t else Run(Apply(t, ops[0]), ops[1..])
  }

  /** A history is made of its steps, each taken where the one before ended. */
  lemma {:induction false} RunAppends(t: Tables, ops: seq<Op>, op: Op)
    ensures Run(t, []) == t
    ensures Run(t, ops + [op]) == if op.Reserve? then ReserveTx(Run(t, ops), op.id, op.amount, op.scopes, op.at).1
                                  else ReconcileTx(Run(t, ops), op.id, op.actual).1
    decreases |ops|
  {
    hide ReserveTx, ReconcileTx;
    if ops == [] {
      assert [op][1..] == [];
    } else {
      assert (ops + [op])[1..] == ops[1..] + [op];
      RunAppends(Apply(t, ops[0]), ops[1..], op);
    }
  }

  lemma OwedSame(t: Tables, u: Tables, scope: string)
    requires t.reservations.Keys == u.reservations.Keys
    requires forall id | id in t.reservations :: Share(t, scope)(id) == Share(u, scope)(id)
    ensures Owed(t, scope) == Owed(u, scope)
  {
    SumSame(t.reservations.Keys, Share(t, scope), Share(u, scope));
  }

  lemma ChargeOwes(t: Tables, id: string, amount: nat, scope: string, ceiling: nat)
    requires Linked(t) && id in t.reservations && Counted(t.reservations[id]) == amount && (id, scope) !in t.links
    ensures var u := Charge(t, id, amount, scope, ceiling);
            && Linked(u)
            && Owed(u, scope) == Owed(t, scope) + amount
            && (scope !in t.ledgers ==> Owed(t, scope) == 0)
            && forall s | s != scope :: Owed(u, s) == Owed(t, s)
  {
    var u := Charge(t, id, amount, scope, ceiling);
    SumChange(t.reservations.Keys, Share(t, scope), Share(u, scope), id);
    if scope !in t.ledgers {
      SumZero(t.reservations.Keys, Share(t, scope));
    }
    forall s | s != scope ensures Owed(u, s) == Owed(t, s) {
      OwedSame(t, u, s);
    }
  }

  lemma ChargeConserves(t: Tables, id: string, amount: nat, scope: string, ceiling: nat)
    requires Conserved(t) && id in t.reservations && Counted(t.reservations[id]) == amount && (id, scope) !in t.links && amount <= MAX
    ensures Conserved(Charge(t, id, amount, scope, ceiling))
  {
    hide Linked, Owed, Counted;
    ChargeOwes(t, id, amount, scope, ceiling);
  }

  lemma {:induction false} ChargeAllConserves(t: Tables, id: string, amount: nat, scopes: seq<(string, nat)>)
    requires Conserved(t) && id in t.reservations && Counted(t.reservations[id]) == amount && amount <= MAX
    requires ChargeAll(t, id, amount, scopes).Some?
    ensures Conserved(ChargeAll(t, id, amount, scopes).value)
    decreases |scopes|
  {
    hide Conserved;
    if scopes != [] {
      var (scope, ceiling) := scopes[0];
      ChargeConserves(t, id, amount, scope, ceiling);
      ChargeAllConserves(Charge(t, id, amount, scope, ceiling), id, amount, scopes[1..]);
    }
  }

  lemma RowConserves(t: Tables, id: string, row: Reservation)
    requires Conserved(t) && id !in t.reservations
    ensures Conserved(t.(reservations := t.reservations[id := row]))
  {
    var u := t.(reservations := t.reservations[id := row]);
    var ids := u.reservations.Keys;
    assert ids == t.reservations.Keys + {id} && ids - {id} == t.reservations.Keys;
    forall s | s in t.ledgers ensures Owed(u, s) == Owed(t, s) {
      SumRemove(ids, Share(u, s), id);
      SumSame(t.reservations.Keys, Share(u, s), Share(t, s));
    }
  }

  lemma ReconcileConserves(t: Tables, id: string, actual: Option<nat>)
    requires Conserved(t)
    ensures Conserved(ReconcileTx(t, id, actual).1)
  {
    var (r, u) := ReconcileTx(t, id, actual);
    if r == Ok(true) {
      forall s | s in t.ledgers && u.ledgers[s].reserved.Known? ensures u.ledgers[s].reserved.value == Owed(u, s) {
        assert u.reservations.Keys == t.reservations.Keys;
        SumChange(t.reservations.Keys, Share(t, s), Share(u, s), id);
        assert s in ScopesOf(t, id) <==> (id, s) in t.links by { LinkedScopes(t, id, s); }
      }
    }
  }

  lemma LinkedScopes(t: Tables, id: string, scope: string)
    ensures scope in ScopesOf(t, id) <==> (id, scope) in t.links
  {
    if (id, scope) in t.links {
      var link := (id, scope);
      assert link.1 in ScopesOf(t, id);
    }
  }

  lemma ApplyConserves(t: Tables, op: Op)
    requires Conserved(t)
    ensures Conserved(Apply(t, op))
  {
    hide Conserved, ChargeAll, Refusal;
    match op
    case Reserve(id, amount, scopes, at) =>
      var row := Reservation(amount, None, if at > MAX then MAX else at);
      var u := t.(reservations := t.reservations[id := row]);
      if id !in t.reservations {
        RowConserves(t, id, row);
        if amount <= MAX && ChargeAll(u, id, amount, scopes).Some? {
          ChargeAllConserves(u, id, amount, scopes);
        }
      }
    case Reconcile(id, actual) =>
      ReconcileConserves(t, id, actual);
  }

  lemma {:induction false} ConservationKept(t: Tables, ops: seq<Op>)
    requires Conserved(t)
    ensures Conserved(Run(t, ops))
    decreases |ops|
  {
    hide Conserved, Apply;
    if ops != [] {
      ApplyConserves(t, ops[0]);
      ConservationKept(Apply(t, ops[0]), ops[1..]);
    }
  }

  /**
   Conservation: after any calls with any arguments, every ledger holds the sum, over the
   reservations linked to its scope, of the actual cost if reconciled and else of the amount.
   */
  lemma RunConserves(ops: seq<Op>)
    ensures Conserved(Run(EMPTY, ops))
  {
    ConservationKept(EMPTY, ops);
  }

  // ---- Ceilings ----

  /** Every ledger is a 64-bit sum no larger than its scope's ceiling. */
  ghost predicate UnderCeilings(t: Tables, ceiling: string -> nat) {
    forall s | s in t.ledgers :: t.ledgers[s].reserved.Known? && 0 <= t.ledgers[s].reserved.value <= ceiling(s) < MAX
  }

  /** The call passes the fixed ceilings, and reports no more than what was reserved. */
  ghost predicate InTerms(t: Tables, ceiling: string -> nat, op: Op) {
    match op
    case Reserve(_, _, scopes, _) => forall i | 0 <= i < |scopes| :: scopes[i].1 == ceiling(scopes[i].0) < MAX
    case Reconcile(id, actual) => actual.Some? && id in t.reservations ==> actual.value <= t.reservations[id].amount
  }

  ghost predicate AllInTerms(t: Tables, ceiling: string -> nat, ops: seq<Op>)
    decreases |ops|
  {
    ops == [] || (InTerms(t, ceiling, ops[0]) && AllInTerms(Apply(t, ops[0]), ceiling, ops[1..]))
  }

  /** What the first loop established still holds of a scope it has not yet charged. */
  lemma {:induction false} RefusalLocal(a: map<string, Ledger>, b: map<string, Ledger>, amount: nat, scopes: seq<(string, nat)>)
    requires forall i | 0 <= i < |scopes| :: scopes[i].0 in a <==> scopes[i].0 in b
    requires forall i | 0 <= i < |scopes| && scopes[i].0 in a :: a[scopes[i].0] == b[scopes[i].0]
    ensures Refusal(a, amount, scopes) == Refusal(b, amount, scopes)
    decreases |scopes|
  {
    if scopes != [] {
      assert scopes[0].0 in a ==> a[scopes[0].0] == b[scopes[0].0];
      RefusalLocal(a, b, amount, scopes[1..]);
    }
  }

  /** A scope already linked to the reservation cannot be charged to it again. */
  lemma {:induction false} LinkedOnce(t: Tables, id: string, amount: nat, scopes: seq<(string, nat)>, i: nat)
    requires ChargeAll(t, id, amount, scopes).Some? && i < |scopes|
    ensures (id, scopes[i].0) !in t.links
    decreases |scopes|
  {
    if i > 0 {
      LinkedOnce(Charge(t, id, amount, scopes[0].0, scopes[0].1), id, amount, scopes[1..], i - 1);
    }
  }

  lemma {:induction false} ScopesDistinct(t: Tables, id: string, amount: nat, scopes: seq<(string, nat)>, i: nat, j: nat)
    requires ChargeAll(t, id, amount, scopes).Some? && i < j < |scopes|
    ensures scopes[i].0 != scopes[j].0
    decreases |scopes|
  {
    var u := Charge(t, id, amount, scopes[0].0, scopes[0].1);
    if i > 0 {
      ScopesDistinct(u, id, amount, scopes[1..], i - 1, j - 1);
    } else {
      LinkedOnce(u, id, amount, scopes[1..], j - 1);
    }
  }

  /** A new reservation naming a scope twice is refused as a whole: the charge already made is rolled back. */
  lemma DuplicateScopeRefused(t: Tables, id: string, amount: nat, scopes: seq<(string, nat)>, at: nat, i: nat, j: nat)
    requires id !in t.reservations && i < j < |scopes| && scopes[i].0 == scopes[j].0
    ensures ReserveTx(t, id, amount, scopes, at).0.Err? && ReserveTx(t, id, amount, scopes, at).1 == t
  {
    hide ChargeAll, Refusal;
    var u := t.(reservations := t.reservations[id := Reservation(amount, None, if at > MAX then MAX else at)]);
    if ChargeAll(u, id, amount, scopes).Some? {
      ScopesDistinct(u, id, amount, scopes, i, j);
    }
  }

  /** Charging the first scope does not touch the later ones, so they are still not refused. */
  lemma ChargeStep(t: Tables, id: string, amount: nat, scopes: seq<(string, nat)>)
    requires scopes != [] && Refusal(t.ledgers, amount, scopes).None? && ChargeAll(t, id, amount, scopes).Some?
    ensures var u := Charge(t, id, amount, scopes[0].0, scopes[0].1);
            && Refusal(u.ledgers, amount, scopes[1..]).None?
            && ChargeAll(u, id, amount, scopes[1..]) == ChargeAll(t, id, amount, scopes)
    ensures forall i | 0 < i < |scopes| :: scopes[i].0 != scopes[0].0
  {
    var u := Charge(t, id, amount, scopes[0].0, scopes[0].1);
    forall i | 0 < i < |scopes| ensures scopes[i].0 != scopes[0].0 {
      LinkedOnce(u, id, amount, scopes[1..], i - 1);
    }
    RefusalLocal(t.ledgers, u.ledgers, amount, scopes[1..]);
  }

  lemma {:induction false} ChargeAllUnder(t: Tables, id: string, amount: nat, scopes: seq<(string, nat)>, ceiling: string -> nat)
    requires UnderCeilings(t, ceiling) && (forall i | 0 <= i < |scopes| :: scopes[i].1 == ceiling(scopes[i].0) < MAX)
    requires Refusal(t.ledgers, amount, scopes).None? && ChargeAll(t, id, amount, scopes).Some?
    ensures UnderCeilings(ChargeAll(t, id, amount, scopes).value, ceiling)
    decreases |scopes|
  {
    if scopes != [] {
      ChargeStep(t, id, amount, scopes);
      ChargeAllUnder(Charge(t, id, amount, scopes[0].0, scopes[0].1), id, amount, scopes[1..], ceiling);
    }
  }

  /** What a linked, unreconciled reservation counts for is part of its ledger. */
  lemma AmountInLedger(t: Tables, id: string, scope: string)
    requires Conserved(t) && (id, scope) in t.links && t.ledgers[scope].reserved.Known?
    ensures t.ledgers[scope].reserved.value >= Counted(t.reservations[id])
  {
    SumBounds(t.reservations.Keys, Share(t, scope));
    assert Share(t, scope)(id) == Counted(t.reservations[id]);
  }

  lemma ApplyUnder(t: Tables, op: Op, ceiling: string -> nat)
    requires Conserved(t) && UnderCeilings(t, ceiling) && InTerms(t, ceiling, op)
    ensures UnderCeilings(Apply(t, op), ceiling)
  {
    hide ChargeAll, Refusal;
    match op
    case Reserve(id, amount, scopes, at) =>
      var row := Reservation(amount, None, if at > MAX then MAX else at);
      var u := t.(reservations := t.reservations[id := row]);
      if id !in t.reservations && amount <= MAX && Refusal(t.ledgers, amount, scopes).None? && ChargeAll(u, id, amount, scopes).Some? {
        ChargeAllUnder(u, id, amount, scopes, ceiling);
      }
    case Reconcile(id, actual) =>
      if ReconcileTx(t, id, actual).0 == Ok(true) {
        forall s | s in ScopesOf(t, id) ensures (id, s) in t.links && t.ledgers[s].reserved.value >= t.reservations[id].amount {
          LinkedScopes(t, id, s);
          AmountInLedger(t, id, s);
        }
      }
  }

  lemma {:induction false} CeilingsKept(t: Tables, ops: seq<Op>, ceiling: string -> nat)
    requires Conserved(t) && UnderCeilings(t, ceiling) && AllInTerms(t, ceiling, ops)
    ensures UnderCeilings(Run(t, ops), ceiling)
    decreases |ops|
  {
    hide Conserved, Apply, UnderCeilings, InTerms;
    if ops != [] {
      ApplyConserves(t, ops[0]);
      ApplyUnder(t, ops[0], ceiling);
      CeilingsKept(Apply(t, ops[0]), ops[1..], ceiling);
    }
  }

  /**
   Ceilings: under fixed ceilings below the integer maximum, with no report above its reservation,
   no scope ever exceeds its ceiling and no sum ever leaves 64 bits.
   */
  lemma RunStaysUnderCeilings(ops: seq<Op>, ceiling: string -> nat)
    requires AllInTerms(EMPTY, ceiling, ops)
    ensures UnderCeilings(Run(EMPTY, ops), ceiling)
  {
    CeilingsKept(EMPTY, ops, ceiling);
  }

  /** What the reservation leaves at a scope it charges. */
  lemma {:induction false} ChargedTo(t: Tables, id: string, amount: nat, scopes: seq<(string, nat)>, i: nat)
    requires Refusal(t.ledgers, amount, scopes).None? && ChargeAll(t, id, amount, scopes).Some? && i < |scopes|
    ensures var u := ChargeAll(t, id, amount, scopes).value;
            var scope := scopes[i].0;
            var before := if scope in t.ledgers then t.ledgers[scope].reserved else Known(0);
            && before.Known? && SaturatingAdd(before.value, amount) <= scopes[i].1
            && scope in u.ledgers && u.ledgers[scope].reserved == if scope in t.ledgers then Plus(before, amount) else Known(amount)
    decreases |scopes|
  {
    ChargeStep(t, id, amount, scopes);
    var u := Charge(t, id, amount, scopes[0].0, scopes[0].1);
    if i > 0 {
      ChargedTo(u, id, amount, scopes[1..], i - 1);
    } else {
      ChargeAllElsewhere(u, id, amount, scopes[1..], scopes[0].0);
    }
  }

  lemma {:induction false} ChargeAllElsewhere(t: Tables, id: string, amount: nat, scopes: seq<(string, nat)>, scope: string)
    requires ChargeAll(t, id, amount, scopes).Some? && scope in t.ledgers && forall i | 0 <= i < |scopes| :: scopes[i].0 != scope
    ensures var u := ChargeAll(t, id, amount, scopes).value; scope in u.ledgers && u.ledgers[scope] == t.ledgers[scope]
    decreases |scopes|
  {
    if scopes != [] {
      ChargeAllElsewhere(Charge(t, id, amount, scopes[0].0, scopes[0].1), id, amount, scopes[1..], scope);
    }
  }

  /**
   A newly accepted reservation leaves a scope within the ceiling it was checked against if and
   only if that ceiling is below the integer maximum or the sum still fits. With the maximum as
   ceiling the saturated comparison refuses nothing.
   */
  lemma AcceptedFitsExactly(t: Tables, id: string, amount: nat, scopes: seq<(string, nat)>, at: nat, i: nat)
    requires ReserveTx(t, id, amount, scopes, at).0.Ok? && id !in t.reservations && i < |scopes|
    requires scopes[i].0 in t.ledgers ==> t.ledgers[scopes[i].0].reserved.Known? && t.ledgers[scopes[i].0].reserved.value >= 0
    ensures var (scope, ceiling) := scopes[i];
            var u := ReserveTx(t, id, amount, scopes, at).1;
            var before := if scope in t.ledgers then t.ledgers[scope].reserved.value else 0;
            && scope in u.ledgers
            && ((u.ledgers[scope].reserved.Known? && u.ledgers[scope].reserved.value <= ceiling) <==> (ceiling < MAX || before + amount <= MAX))
  {
    hide ChargeAll, Refusal;
    var row := Reservation(amount, None, if at > MAX then MAX else at);
    ChargedTo(t.(reservations := t.reservations[id := row]), id, amount, scopes, i);
  }

  /** Two accepted reservations under the maximum ceiling whose sum is lost. */
  lemma MaximumCeilingOverflows(at: nat)
    ensures var scopes := [("global", MAX as nat)];
            var t := ReserveTx(EMPTY, "a", MAX, scopes, at).1;
            var (r, u) := ReserveTx(t, "b", 1, scopes, at);
            r.Ok? && "global" in u.ledgers && u.ledgers["global"].reserved == Overflowed
  {
    hide ReserveTx;
    OneScope(EMPTY, "a", MAX, "global", MAX, at);
    var t := ReserveTx(EMPTY, "a", MAX, [("global", MAX as nat)], at).1;
    OneScope(t, "b", 1, "global", MAX, at);
  }

  /** A new reservation of a single scope that the ceiling admits. */
  lemma OneScope(t: Tables, id: string, amount: nat, scope: string, ceiling: nat, at: nat)
    requires id !in t.reservations && (id, scope) !in t.links && amount <= MAX && ceiling <= MAX
    requires scope in t.ledgers ==> t.ledgers[scope].reserved.Known?
    requires SaturatingAdd(if scope in t.ledgers then t.ledgers[scope].reserved.value else 0, amount) <= ceiling
    ensures var row := Reservation(amount, None, if at > MAX then MAX else at);
            ReserveTx(t, id, amount, [(scope, ceiling)], at)
            == (Ok(()), Charge(t.(reservations := t.reservations[id := row]), id, amount, scope, ceiling))
  {
    var scopes := [(scope, ceiling)];
    assert scopes[1..] == [];
    assert Refusal(t.ledgers, amount, scopes) == Refusal(t.ledgers, amount, scopes[1..]);
    var u := t.(reservations := t.reservations[id := Reservation(amount, None, if at > MAX then MAX else at)]);
    assert ChargeAll(u, id, amount, scopes) == ChargeAll(Charge(u, id, amount, scope, ceiling), id, amount, scopes[1..]);
  }

  /** A newly accepted reservation leaves its i-th scope a 64-bit sum within the ceiling it was checked against. */
  ghost predicate Fits(t: Tables, id: string, amount: nat, scopes: seq<(string, nat)>, at: nat, i: nat) {
    id !in t.reservations && i < |scopes| && ReserveTx(t, id, amount, scopes, at).0.Ok? ==>
      var u := ReserveTx(t, id, amount, scopes, at).1;
      scopes[i].0 in u.ledgers && u.ledgers[scopes[i].0].reserved.Known? && u.ledgers[scopes[i].0].reserved.value <= scopes[i].1
  }

  /**
   A configured ceiling holds for every reservation accepted against it, in every history, if and
   only if it is below the integer maximum.
   */
  lemma CeilingsHoldExactly(ceiling: nat)
    requires ceiling <= MAX
    ensures (forall ops: seq<Op>, id: string, amount: nat, scopes: seq<(string, nat)>, at: nat, i: nat ::
               i < |scopes| && scopes[i].1 == ceiling ==> Fits(Run(EMPTY, ops), id, amount, scopes, at, i))
            <==> ceiling < MAX
  {
    hide Run, Fits;
    if ceiling < MAX {
      forall ops: seq<Op>, id: string, amount: nat, scopes: seq<(string, nat)>, at: nat, i: nat | i < |scopes| && scopes[i].1 == ceiling
        ensures Fits(Run(EMPTY, ops), id, amount, scopes, at, i)
      {
        RunConserves(ops);
        LowCeilingFits(Run(EMPTY, ops), id, amount, scopes, at, i);
      }
    } else {
      var scopes := [("global", MAX as nat)];
      var first := [Reserve("a", MAX, scopes, 0)];
      MaximumUnfit();
      assert scopes[0].1 == ceiling && !Fits(Run(EMPTY, first), "b", 1, scopes, 0, 0);
    }
  }

  lemma LowCeilingFits(t: Tables, id: string, amount: nat, scopes: seq<(string, nat)>, at: nat, i: nat)
    requires Conserved(t) && i < |scopes| && scopes[i].1 < MAX
    ensures Fits(t, id, amount, scopes, at, i)
  {
    hide Refusal, ChargeAll, Conserved;
    if id !in t.reservations && ReserveTx(t, id, amount, scopes, at).0.Ok? {
      var u := t.(reservations := t.reservations[id := Reservation(amount, None, if at > MAX then MAX else at)]);
      ChargedTo(u, id, amount, scopes, i);
      if scopes[i].0 in t.ledgers { NeverNegative(t, scopes[i].0); }
      AcceptedFitsExactly(t, id, amount, scopes, at, i);
    }
  }

  lemma NeverNegative(t: Tables, scope: string)
    requires Conserved(t) && scope in t.ledgers && t.ledgers[scope].reserved.Known?
    ensures t.ledgers[scope].reserved.value >= 0
  {
    SumBounds(t.reservations.Keys, Share(t, scope));
  }

  lemma MaximumUnfit()
    ensures var scopes := [("global", MAX as nat)];
            !Fits(Run(EMPTY, [Reserve("a", MAX, scopes, 0)]), "b", 1, scopes, 0, 0)
  {
    hide ReserveTx;
    MaximumCeilingOverflows(0);
    var scopes := [("global", MAX as nat)];
    var op := Reserve("a", MAX, scopes, 0);
    assert [op][1..] == [];
    assert Run(EMPTY, [op]) == Apply(EMPTY, op);
    OneScope(EMPTY, "a", MAX, "global", MAX, 0);
  }

  // ---- Retries ----

  /** Once recorded, a reservation keeps its amount, and once settled its actual cost too. */
  ghost predicate Keeps(t: Tables, u: Tables) {
    forall id | id in t.reservations ::
      && id in u.reservations && u.reservations[id].amount == t.reservations[id].amount
      && (t.reservations[id].actual.Some? ==> u.reservations[id] == t.reservations[id])
  }

  lemma {:induction false} ChargeAllRows(t: Tables, id: string, amount: nat, scopes: seq<(string, nat)>)
    requires ChargeAll(t, id, amount, scopes).Some?
    ensures ChargeAll(t, id, amount, scopes).value.reservations == t.reservations
    decreases |scopes|
  {
    if scopes != [] {
      ChargeAllRows(Charge(t, id, amount, scopes[0].0, scopes[0].1), id, amount, scopes[1..]);
    }
  }

  lemma ApplyKeeps(t: Tables, op: Op)
    ensures Keeps(t, Apply(t, op))
  {
    hide ChargeAll, Refusal;
    if op.Reserve? && op.id !in t.reservations {
      var row := Reservation(op.amount, None, if op.at > MAX then MAX else op.at);
      var u := t.(reservations := t.reservations[op.id := row]);
      if ChargeAll(u, op.id, op.amount, op.scopes).Some? {
        ChargeAllRows(u, op.id, op.amount, op.scopes);
      }
    }
  }

  lemma {:induction false} RunKeeps(t: Tables, ops: seq<Op>)
    ensures Keeps(t, Run(t, ops))
    decreases |ops|
  {
    hide Apply;
    if ops != [] {
      ApplyKeeps(t, ops[0]);
      RunKeeps(Apply(t, ops[0]), ops[1..]);
    }
  }

  /**
   Retries: after an accepted reservation and any later calls, reserving the same ID again with any
   arguments succeeds and changes nothing; likewise a second reconciliation changes nothing.
   */
  lemma RetriesChangeNothing(t: Tables, ops: seq<Op>, id: string, amount: nat, scopes: seq<(string, nat)>, at: nat, actual: Option<nat>)
    ensures id in t.reservations ==>
              var u := Run(t, ops);
              ReserveTx(u, id, amount, scopes, at) == (Ok(()), u)
    ensures id in t.reservations && t.reservations[id].actual.Some? ==>
              var u := Run(t, ops);
              ReconcileTx(u, id, actual) == (Ok(false), u)
  {
    hide Run, Refusal, ChargeAll;
    RunKeeps(t, ops);
  }

  /** An accepted call records its reservation or its actual cost; a refused one leaves every table alone. */
  lemma AcceptedIsRecorded(t: Tables, op: Op)
    ensures op.Reserve? ==>
              var (r, u) := ReserveTx(t, op.id, op.amount, op.scopes, op.at);
              (r.Ok? ==> op.id in u.reservations) && (r.Err? ==> u == t)
    ensures op.Reconcile? ==>
              var (r, u) := ReconcileTx(t, op.id, op.actual);
              && (r == Ok(true) ==> u.reservations[op.id].actual == op.actual && op.actual.Some? && t.reservations[op.id].actual.None?)
              && (r != Ok(true) ==> u == t)
  {
    hide ChargeAll, Refusal;
    if op.Reserve? && op.id !in t.reservations {
      var row := Reservation(op.amount, None, if op.at > MAX then MAX else op.at);
      var u := t.(reservations := t.reservations[op.id := row]);
      if ChargeAll(u, op.id, op.amount, op.scopes).Some? {
        ChargeAllRows(u, op.id, op.amount, op.scopes);
      }
    }
  }

  // ---- What each call does and answers, exactly ----

  /** The scope takes the amount: ceiling and sum are 64-bit integers, and the saturated sum is within the ceiling. */
  ghost predicate Admits(ledgers: map<string, Ledger>, amount: nat, scope: string, ceiling: nat) {
    && ceiling <= MAX && (scope in ledgers ==> ledgers[scope].reserved.Known?)
    && (ceiling == MAX || amount + (if scope in ledgers then ledgers[scope].reserved.value else 0) <= ceiling)
  }

  /** The first scope not to take the amount has an integer sum and ceiling, which the amount would exceed. */
  ghost predicate FirstExceeded(ledgers: map<string, Ledger>, amount: nat, scopes: seq<(string, nat)>) {
    exists i | 0 <= i < |scopes| ::
      && !Admits(ledgers, amount, scopes[i].0, scopes[i].1) && scopes[i].1 <= MAX
      && (scopes[i].0 in ledgers ==> ledgers[scopes[i].0].reserved.Known?)
      && forall j | 0 <= j < i :: Admits(ledgers, amount, scopes[j].0, scopes[j].1)
  }

  lemma {:induction false} RefusalExactly(ledgers: map<string, Ledger>, amount: nat, scopes: seq<(string, nat)>)
    ensures var r := Refusal(ledgers, amount, scopes);
            && (r.None? <==> forall i | 0 <= i < |scopes| :: Admits(ledgers, amount, scopes[i].0, scopes[i].1))
            && (r == Some(BudgetExhausted) <==> FirstExceeded(ledgers, amount, scopes))
            && (r.Some? ==> r.value == BudgetExhausted || r.value == Sqlite)
    decreases |scopes|
  {
    if scopes != [] {
      var rest := scopes[1..];
      RefusalExactly(ledgers, amount, rest);
      var first := Admits(ledgers, amount, scopes[0].0, scopes[0].1);
      assert forall i | 0 <= i < |rest| :: rest[i] == scopes[i + 1];
      if first && FirstExceeded(ledgers, amount, rest) {
        ExceededLater(ledgers, amount, scopes);
      }
      if first && FirstExceeded(ledgers, amount, scopes) {
        ExceededBefore(ledgers, amount, scopes);
      }
    }
  }

  lemma ExceededLater(ledgers: map<string, Ledger>, amount: nat, scopes: seq<(string, nat)>)
    requires scopes != [] && Admits(ledgers, amount, scopes[0].0, scopes[0].1) && FirstExceeded(ledgers, amount, scopes[1..])
    ensures FirstExceeded(ledgers, amount, scopes)
  {
    hide Admits;
    var rest := scopes[1..];
    var i :| 0 <= i < |rest| && !Admits(ledgers, amount, rest[i].0, rest[i].1) && rest[i].1 <= MAX
             && (rest[i].0 in ledgers ==> ledgers[rest[i].0].reserved.Known?)
             && forall j | 0 <= j < i :: Admits(ledgers, amount, rest[j].0, rest[j].1);
    forall j | 0 <= j < i + 1 ensures Admits(ledgers, amount, scopes[j].0, scopes[j].1) {
      if j > 0 { assert rest[j - 1] == scopes[j]; }
    }
    assert scopes[i + 1] == rest[i];
  }

  lemma ExceededBefore(ledgers: map<string, Ledger>, amount: nat, scopes: seq<(string, nat)>)
    requires scopes != [] && Admits(ledgers, amount, scopes[0].0, scopes[0].1) && FirstExceeded(ledgers, amount, scopes)
    ensures FirstExceeded(ledgers, amount, scopes[1..])
  {
    hide Admits;
    var rest := scopes[1..];
    var i :| 0 <= i < |scopes| && !Admits(ledgers, amount, scopes[i].0, scopes[i].1) && scopes[i].1 <= MAX
             && (scopes[i].0 in ledgers ==> ledgers[scopes[i].0].reserved.Known?)
             && forall j | 0 <= j < i :: Admits(ledgers, amount, scopes[j].0, scopes[j].1);
    assert forall j | 0 <= j < |rest| :: rest[j] == scopes[j + 1];
    assert rest[i - 1] == scopes[i];
  }

  ghost predicate Distinct(scopes: seq<(string, nat)>) {
    forall i, j | 0 <= i < j < |scopes| :: scopes[i].0 != scopes[j].0
  }

  /** Each named scope owes the amount more, none other changes, and each is linked to the reservation. */
  ghost predicate Charged(t: Tables, u: Tables, id: string, amount: nat, scopes: seq<(string, nat)>) {
    && u.reservations == t.reservations
    && (forall s :: s in u.ledgers <==> s in t.ledgers || exists i | 0 <= i < |scopes| :: scopes[i].0 == s)
    && (forall s | s in t.ledgers && (forall i | 0 <= i < |scopes| :: scopes[i].0 != s) :: u.ledgers[s] == t.ledgers[s])
    && (forall i | 0 <= i < |scopes| :: scopes[i].0 in u.ledgers && u.ledgers[scopes[i].0] == WithAmount(t.ledgers, amount, scopes[i].0, scopes[i].1))
    && (forall link :: link in u.links <==> link in t.links || exists i | 0 <= i < |scopes| :: link == (id, scopes[i].0))
  }

  /** A ledger keeps its first ceiling; a sum beyond 64 bits is no integer any more. */
  ghost function WithAmount(ledgers: map<string, Ledger>, amount: nat, scope: string, ceiling: nat): Ledger {
    if scope !in ledgers then Ledger(ceiling, Known(amount))
    else match ledgers[scope].reserved
      case Overflowed => ledgers[scope]
      case Known(n) => Ledger(ledgers[scope].ceiling, if -MAX - 1 <= n + amount <= MAX then Known(n + amount) else Overflowed)
  }

  lemma {:induction false} ChargesExactly(t: Tables, id: string, amount: nat, scopes: seq<(string, nat)>)
    ensures ChargeAll(t, id, amount, scopes).Some? <==>
              Distinct(scopes) && forall i | 0 <= i < |scopes| :: (id, scopes[i].0) !in t.links
    ensures ChargeAll(t, id, amount, scopes).Some? ==> Charged(t, ChargeAll(t, id, amount, scopes).value, id, amount, scopes)
    decreases |scopes|
  {
    hide Charged;
    if scopes == [] {
      NothingCharged(t, id, amount);
    } else if (id, scopes[0].0) !in t.links {
      var rest := scopes[1..];
      var u := Charge(t, id, amount, scopes[0].0, scopes[0].1);
      assert forall i | 0 <= i < |rest| :: rest[i] == scopes[i + 1];
      assert u.links == t.links + {(id, scopes[0].0)};
      ChargesExactly(u, id, amount, rest);
      if ChargeAll(u, id, amount, rest).Some? {
        forall i | 0 < i < |scopes| ensures scopes[i].0 != scopes[0].0 { assert rest[i - 1] == scopes[i]; }
        hide Distinct, ChargeAll;
        ChargedFurther(t, ChargeAll(u, id, amount, rest).value, id, amount, scopes);
      }
    }
  }

  lemma NothingCharged(t: Tables, id: string, amount: nat)
    ensures Charged(t, t, id, amount, [])
  {
  }

  lemma ChargedFurther(t: Tables, v: Tables, id: string, amount: nat, scopes: seq<(string, nat)>)
    requires scopes != [] && Charged(Charge(t, id, amount, scopes[0].0, scopes[0].1), v, id, amount, scopes[1..])
    requires forall i | 0 < i < |scopes| :: scopes[i].0 != scopes[0].0
    ensures Charged(t, v, id, amount, scopes)
  {
    var u, rest := Charge(t, id, amount, scopes[0].0, scopes[0].1), scopes[1..];
    assert forall i | 0 <= i < |rest| :: rest[i] == scopes[i + 1];
    assert forall i | 0 < i < |scopes| :: scopes[i] == rest[i - 1];
    assert u.ledgers[scopes[0].0] == WithAmount(t.ledgers, amount, scopes[0].0, scopes[0].1);
    assert forall i | 0 <= i < |rest| :: rest[i].0 != scopes[0].0;
    forall i | 0 < i < |scopes| ensures scopes[i].0 in v.ledgers && v.ledgers[scopes[i].0] == WithAmount(t.ledgers, amount, scopes[i].0, scopes[i].1) {
      assert scopes[i] == rest[i - 1];
    }
  }

  /**
   A new reservation is accepted if and only if the amount is a 64-bit integer, every scope takes it and
   no scope is named twice; it then charges each scope once. It is refused as exhausted if and only if
   the first scope not to take it would exceed its ceiling.
   */
  lemma ReservesExactly(t: Tables, id: string, amount: nat, scopes: seq<(string, nat)>, at: nat)
    requires Linked(t) && id !in t.reservations
    ensures var (r, u) := ReserveTx(t, id, amount, scopes, at);
            && (r.Ok? <==> amount <= MAX && Distinct(scopes) && forall i | 0 <= i < |scopes| :: Admits(t.ledgers, amount, scopes[i].0, scopes[i].1))
            && (r.Ok? ==> && u.reservations == t.reservations[id := Reservation(amount, None, if at <= MAX then at else MAX)]
                          && Charged(t, u.(reservations := t.reservations), id, amount, scopes))
            && (r == Err(BudgetExhausted) <==> amount <= MAX && FirstExceeded(t.ledgers, amount, scopes))
            && (r.Err? ==> u == t && (r.error == BudgetExhausted || r.error == Sqlite))
  {
    hide Refusal, ChargeAll, Distinct, Admits, FirstExceeded;
    var row := Reservation(amount, None, if at > MAX then MAX else at);
    var v := t.(reservations := t.reservations[id := row]);
    RefusalExactly(t.ledgers, amount, scopes);
    ChargesExactly(v, id, amount, scopes);
  }

  /**
   A reconciliation takes effect if and only if it reports a 64-bit cost for a known reservation that
   has none yet; every linked ledger then gives up the amount for the cost, and no other row changes.
   */
  lemma ReconcilesExactly(t: Tables, id: string, actual: Option<nat>)
    ensures var (r, u) := ReconcileTx(t, id, actual);
            && (r == Ok(true) <==> actual.Some? && id in t.reservations && t.reservations[id].actual.None? && actual.value <= MAX)
            && (r == Err(ReservationNotFound) <==> actual.Some? && id !in t.reservations)
            && (r == Err(Sqlite) <==> actual.Some? && id in t.reservations && t.reservations[id].actual.None? && actual.value > MAX)
            && (r == Err(ReservationNotFound) || r == Err(Sqlite) || r == Ok(false) || r == Ok(true))
            && (r != Ok(true) ==> u == t)
            && (r == Ok(true) ==>
                  && u.links == t.links && u.ledgers.Keys == t.ledgers.Keys
                  && u.reservations == t.reservations[id := Reservation(t.reservations[id].amount, actual, t.reservations[id].createdAt)]
                  && forall s | s in t.ledgers ::
                       && u.ledgers[s].ceiling == t.ledgers[s].ceiling
                       && u.ledgers[s].reserved == if (id, s) in t.links then Replaced(t.ledgers[s].reserved, t.reservations[id].amount, actual.value)
                                                   else t.ledgers[s].reserved)
  {
    forall s ensures s in ScopesOf(t, id) <==> (id, s) in t.links { LinkedScopes(t, id, s); }
  }

  /** The amount taken out and the cost put in, both as 64-bit sums. */
  ghost function Replaced(c: Cell, amount: nat, actual: nat): Cell {
    match c
    case Overflowed => Overflowed
    case Known(n) => if -MAX - 1 <= n - amount <= MAX && -MAX - 1 <= n - amount + actual <= MAX then Known(n - amount + actual) else Overflowed
  }
}
