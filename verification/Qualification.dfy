/**
 Deployment qualification in the journal database (src/reasoning/storage/gitops.rs, with the receipt
 checks of src/gitops/receipt.rs). The digest of a receipt is any function, injective where said so.
 */
module Qualification {
  import opened Outcomes
  import opened Health
  import C = ComposeImage
  import Text

  const MAX_SEQUENCE: nat := 0x7FFF_FFFF_FFFF_FFFF

  datatype Receipt = Receipt(
    schema: string, repository: string, service: string, id: string, commit: string, image: string,
    observedCommit: string, observedImage: string, completedAt: U64, policyDeclaredAt: U64,
    policy: Policy, samples: seq<Sample>, succeeded: bool, revoked: bool)

  datatype Reason = Revoked | Qualified | FailedInitialAssessment | ContradictoryReceipt

  /** A journal event: a qualification fact, or anything else the journal records. */
  datatype Fact = Fact(id: string, digest: string, eligible: bool, reason: Reason, at: U64) | Other(event: string)

  /** A row of qualified_deployments. */
  datatype Row = Row(digest: string, receipt: Receipt, eligible: bool)

  /** The tables, and the journal the process holds in memory. */
  datatype Store = Store(rows: seq<Fact>, table: map<string, Row>, audit: map<string, Receipt>, journal: seq<Fact>)

  datatype StoreError = InvalidDeployment | NonContiguousSequence

  const EMPTY: Store := Store([], map[], map[], [])

  predicate ValidShape(r: Receipt) {
    && r.schema == "ai-sre/deployment-receipt/v1" && r.repository == "bodhispace-xyz/bodhispace-homelab"
    && r.service == "utility/it-tools" && 0 < |r.id| <= 128
    && (forall i | 0 <= i < |r.id| :: Text.IsAlphanumeric(r.id[i]) || r.id[i] == '-' || r.id[i] == '_')
    && Text.ValidSha(r.commit) && Text.ValidSha(r.observedCommit) && C.ValidImage(r.image) && C.ValidImage(r.observedImage)
    && r.completedAt <= 0x7FFF_FFFF_FFFF_FFFF && |r.samples| <= MAX_SAMPLES
  }

  predicate Eligible(r: Receipt, now: U64) {
    && r.succeeded && !r.revoked && r.policyDeclaredAt < r.completedAt
    && r.commit == r.observedCommit && r.image == r.observedImage
    && Assessed(r.policy, r.completedAt, now, r.samples).Ok?
  }

  /** The qualification facts of one deployment, oldest first. */
  function FactsOf(rows: seq<Fact>, id: string): seq<Fact> {
    if rows == [] then [] else
    var last := rows[|rows| - 1];
    FactsOf(rows[..|rows| - 1], id) + if last.Fact? && last.id == id then [last] else []
  }

  function Newest(rows: seq<Fact>, id: string): Option<Fact> {
    var facts := FactsOf(rows, id);
    if facts == [] then None else Some(facts[|facts| - 1])
  }

  predicate Audited(journal: seq<Fact>, id: string, digest: string) {
    var newest := Newest(journal, id);
    newest.Some? && newest.value.Fact? && newest.value.eligible && newest.value.digest == digest
  }

  /** The fact a first or a contradicting receipt leaves behind. */
  function NewFact(r: Receipt, digest: string, first: bool, now: U64): Fact {
    var accepted := first && Eligible(r, now);
    Fact(r.id, digest, accepted,
         if r.revoked then Revoked else if accepted then Qualified else if first then FailedInitialAssessment else ContradictoryReceipt,
         now)
  }

  function Recorded(s: Store, r: Receipt, digest: string, fact: Fact): Store
    requires fact.Fact?
  {
    Store(s.rows + [fact],
          s.table[r.id := if r.id in s.table then s.table[r.id].(eligible := false) else Row(digest, r, fact.eligible)],
          if digest in s.audit then s.audit else s.audit[digest := r],
          s.journal + [fact])
  }

  function RecordTx(digest: Receipt -> string, s: Store, r: Receipt, now: U64): (Result<bool, StoreError>, Store) {
    if !ValidShape(r) then (Err(InvalidDeployment), s) else
    var d, known := digest(r), r.id in s.table;
    if known && !s.table[r.id].eligible then (Ok(false), s) else
    if known && !Audited(s.journal, r.id, s.table[r.id].digest) then (Err(InvalidDeployment), s) else
    if known && s.table[r.id].digest == d then (Ok(Eligible(r, now)), s) else
    if |s.journal| > MAX_SEQUENCE || |s.journal| != |s.rows| then (Err(NonContiguousSequence), s) else
    var fact := NewFact(r, d, !known, now);
    (Ok(fact.eligible), Recorded(s, r, d, fact))
  }

  /** `qualified_deployment`: a durable row, its newest fact and its receipt must all agree. */
  function Qualification(digest: Receipt -> string, s: Store, id: string, now: U64): Result<Option<Receipt>, StoreError> {
    if id !in s.table || !s.table[id].eligible then Ok(None) else
    var row, newest := s.table[id], Newest(s.journal, id);
    if !Audited(s.journal, id, row.digest) || now < newest.value.at then Err(InvalidDeployment) else
    if !ValidShape(row.receipt) || row.receipt.id != id || digest(row.receipt) != row.digest then Err(InvalidDeployment) else
    Ok(if Eligible(row.receipt, now) then Some(row.receipt) else None)
  }

  class QualificationStore {
    const digest: Receipt -> string
    var rows: seq<Fact>
    var table: map<string, Row>
    var audit: map<string, Receipt>
    var journal: seq<Fact>

    ghost function Contents(): Store
      reads this
    {
      Store(rows, table, audit, journal)
    }

    /** Opening replays the rows into memory. */
    constructor (digest: Receipt -> string, rows: seq<Fact>, table: map<string, Row>, audit: map<string, Receipt>)
      ensures this.digest == digest && Contents() == Store(rows, table, audit, rows)
    {
      this.digest, this.rows, this.table, this.audit, journal := digest, rows, table, audit, rows;
    }

    /** The newest qualification fact of a deployment, searching backwards. */
    method FindNewest(id: string) returns (r: Option<Fact>)
      ensures r == Newest(journal, id)
      ensures r.Some? ==> r.value.Fact?
    {
      var i := |journal|;
      assert journal[..i] == journal;
      while i > 0
        invariant i <= |journal| && FactsOf(journal, id) == FactsOf(journal[..i], id)
      {
        var entry := journal[i - 1];
        assert journal[..i][..i - 1] == journal[..i - 1];
        if entry.Fact? && entry.id == id { return Some(entry); }
        i := i - 1;
      }
      return None;
    }

    method RecordDeployment(r: Receipt, now: U64) returns (result: Result<bool, StoreError>)
      modifies this
      ensures (result, Contents()) == RecordTx(digest, old(Contents()), r, now)
    {
      hide ValidShape, Eligible, Newest;
      if !ValidShape(r) { return Err(InvalidDeployment); }
      var d := digest(r);
      var accepted := Eligible(r, now);
      var reason := if r.revoked then Revoked else if accepted then Qualified else FailedInitialAssessment;
      if r.id in table {
        if !table[r.id].eligible { return Ok(false); }
        var audited := FindNewest(r.id);
        if audited.None? || !audited.value.eligible || audited.value.digest != table[r.id].digest {
          return Err(InvalidDeployment);
        }
        if table[r.id].digest == d { return Ok(accepted); }
        accepted := false;
        reason := if r.revoked then Revoked else ContradictoryReceipt;
      }
      var fact := Fact(r.id, d, accepted, reason, now);
      if |journal| > MAX_SEQUENCE || |journal| != |rows| { return Err(NonContiguousSequence); }
      if d !in audit { audit := audit[d := r]; }
      if r.id in table {
        table := table[r.id := table[r.id].(eligible := false)];
      } else {
        table := table[r.id := Row(d, r, accepted)];
      }
      rows := rows + [fact];
      journal := journal + [fact];
      return Ok(accepted);
    }

    method QualifiedDeployment(id: string, now: U64) returns (r: Result<Option<Receipt>, StoreError>)
      ensures r == Qualification(digest, Contents(), id, now)
    {
      hide ValidShape, Eligible, Newest;
      if id !in table || !table[id].eligible { return Ok(None); }
      var row := table[id];
      var fact := FindNewest(id);
      if fact.None? || !fact.value.eligible || fact.value.digest != row.digest || now < fact.value.at {
        return Err(InvalidDeployment);
      }
      if !ValidShape(row.receipt) || row.receipt.id != id || digest(row.receipt) != row.digest { return Err(InvalidDeployment); }
      return Ok(if Eligible(row.receipt, now) then Some(row.receipt) else None);
    }
  }

  // ---- Every run ----

  /**
   A step of the service: an import, any other journal append, a restart, or an import whose
   commit took effect although it was reported as failed, which memory then does not know of.
   */
  datatype Step = Record(receipt: Receipt, now: U64) | Append(event: string) | Restart | RecordUnreported(receipt: Receipt, now: U64)

  function Apply(digest: Receipt -> string, s: Store, step: Step): Store {
    match step
    case Record(r, now) => RecordTx(digest, s, r, now).1
    case Append(event) => if |s.journal| != |s.rows| then s else s.(rows := s.rows + [Other(event)], journal := s.journal + [Other(event)])
    case Restart => s.(journal := s.rows)
    case RecordUnreported(r, now) => RecordTx(digest, s, r, now).1.(journal := s.journal)
  }

  function Run(digest: Receipt -> string, s: Store, steps: seq<Step>): Store
    decreases |steps|
  {
    if steps == [] then s else Run(digest, Apply(digest, s, steps[0]), steps[1..])
  }

  /** A history is made of its steps, each taken where the one before ended. */
  lemma {:induction false} RunAppends(digest: Receipt -> string, s: Store, steps: seq<Step>, step: Step)
    ensures Run(digest, s, []) == s
    ensures var (t, u) := (Run(digest, s, steps), Run(digest, s, steps + [step]));
            match step
            case Record(r, now) => u == RecordTx(digest, t, r, now).1
            case Append(event) =>
              u == if |t.journal| == |t.rows| then Store(t.rows + [Other(event)], t.table, t.audit, t.journal + [Other(event)]) else t
            case Restart => u == Store(t.rows, t.table, t.audit, t.rows)
            case RecordUnreported(r, now) => var v := RecordTx(digest, t, r, now).1; u == Store(v.rows, v.table, v.audit, t.journal)
    decreases |steps|
  {
    hide RecordTx;
    if steps == [] {
      assert [step][1..] == [];
    } else {
      assert (steps + [step])[1..] == steps[1..] + [step];
      RunAppends(digest, Apply(digest, s, steps[0]), steps[1..], step);
    }
  }

  /** One eligible fact, one refusing fact, or an eligible and then a refusing one; the row agrees with the newest. */
  ghost predicate RowAgrees(s: Store, id: string) {
    var facts := FactsOf(s.rows, id);
    if id !in s.table then facts == [] else
    var row := s.table[id];
    && 1 <= |facts| <= 2
    && (forall i | 0 <= i < |facts| :: facts[i].Fact?)
    && facts[0].digest == row.digest && facts[0].eligible == (row.eligible || |facts| == 2)
    && (|facts| == 2 ==> !facts[1].eligible && !row.eligible && facts[1].digest != row.digest)
  }

  /** The receipt behind a fact can be looked up, and only qualified facts are eligible. */
  ghost predicate FactSound(s: Store, f: Fact) {
    f.Fact? ==> f.digest in s.audit && (f.eligible <==> f.reason == Qualified)
  }

  ghost predicate Inv(digest: Receipt -> string, s: Store) {
    && |s.journal| <= |s.rows| && s.journal == s.rows[..|s.journal|]
    && (forall id :: RowAgrees(s, id))
    && (forall id | id in s.table :: s.table[id].receipt.id == id && ValidShape(s.table[id].receipt) && s.table[id].digest == digest(s.table[id].receipt))
    && (forall d | d in s.audit :: digest(s.audit[d]) == d)
    && (forall i | 0 <= i < |s.rows| :: FactSound(s, s.rows[i]))
  }

  lemma FactsAppend(rows: seq<Fact>, f: Fact, id: string)
    ensures FactsOf(rows + [f], id) == FactsOf(rows, id) + if f.Fact? && f.id == id then [f] else []
  {
    assert (rows + [f])[..|rows|] == rows;
  }

  lemma RecordedAgrees(digest: Receipt -> string, s: Store, r: Receipt, now: U64, id: string)
    requires RowAgrees(s, id) && RowAgrees(s, r.id)
    requires RecordTx(digest, s, r, now).1 != s
    ensures RowAgrees(RecordTx(digest, s, r, now).1, id)
  {
    hide ValidShape, Eligible, Audited, FactsOf;
    FactsAppend(s.rows, NewFact(r, digest(r), r.id !in s.table, now), id);
  }

  lemma RecordKeepsInv(digest: Receipt -> string, s: Store, r: Receipt, now: U64)
    requires Inv(digest, s)
    ensures var t := RecordTx(digest, s, r, now).1; Inv(digest, t) && Inv(digest, t.(journal := s.journal))
  {
    hide ValidShape, Eligible, Audited, RowAgrees;
    var t := RecordTx(digest, s, r, now).1;
    if t != s {
      var fact := NewFact(r, digest(r), r.id !in s.table, now);
      assert fact.eligible <==> fact.reason == Qualified by { RevokedNotEligible(r, now); }
      forall id ensures RowAgrees(t, id) {
        RecordedAgrees(digest, s, r, now, id);
      }
      SameAgreement(t, t.(journal := s.journal));
      forall i | 0 <= i < |t.rows| ensures FactSound(t, t.rows[i]) {
        if i < |s.rows| {
          assert FactSound(s, s.rows[i]);
        } else {
          assert t.rows[i] == fact;
        }
      }
    }
  }

  lemma RevokedNotEligible(r: Receipt, now: U64)
    ensures Eligible(r, now) ==> !r.revoked
  {
  }

  lemma SameAgreement(s: Store, t: Store)
    requires s.rows == t.rows && s.table == t.table
    ensures forall id :: RowAgrees(s, id) == RowAgrees(t, id)
  {
  }

  lemma ApplyKeepsInv(digest: Receipt -> string, s: Store, step: Step)
    requires Inv(digest, s)
    ensures Inv(digest, Apply(digest, s, step))
  {
    hide RecordTx, RowAgrees, ValidShape;
    var t := Apply(digest, s, step);
    match step
    case Record(r, now) => RecordKeepsInv(digest, s, r, now);
    case RecordUnreported(r, now) => RecordKeepsInv(digest, s, r, now);
    case Append(event) =>
      forall id ensures RowAgrees(t, id) {
        AppendAgrees(s, event, id);
      }
      forall i | 0 <= i < |t.rows| ensures FactSound(t, t.rows[i]) {
        assert i < |s.rows| ==> FactSound(s, s.rows[i]);
      }
    case Restart =>
      SameAgreement(s, t);
      assert forall i | 0 <= i < |t.rows| :: FactSound(t, t.rows[i]) by {
        assert forall i | 0 <= i < |s.rows| :: FactSound(s, s.rows[i]);
      }
  }

  lemma AppendAgrees(s: Store, event: string, id: string)
    requires RowAgrees(s, id)
    ensures RowAgrees(s.(rows := s.rows + [Other(event)], journal := s.journal + [Other(event)]), id)
    ensures RowAgrees(s, id)
  {
    FactsAppend(s.rows, Other(event), id);
  }

  lemma {:induction false} InvKept(digest: Receipt -> string, s: Store, steps: seq<Step>)
    requires Inv(digest, s)
    ensures Inv(digest, Run(digest, s, steps))
    decreases |steps|
  {
    hide Inv, Apply;
    if steps != [] {
      ApplyKeepsInv(digest, s, steps[0]);
      InvKept(digest, Apply(digest, s, steps[0]), steps[1..]);
    }
  }

  /**
   Over every run of a new database, restarts and unreported commits included: a deployment has at
   most two facts, its row is eligible exactly when the newest one accepts the row's digest, and
   memory is a prefix of the journal.
   */
  lemma RunKeepsInv(digest: Receipt -> string, steps: seq<Step>, id: string)
    ensures var s := Run(digest, EMPTY, steps);
            && Inv(digest, s) && |FactsOf(s.rows, id)| <= 2
            && (id in s.table <==> FactsOf(s.rows, id) != [])
            && (id in s.table ==> (s.table[id].eligible <==> Audited(s.rows, id, s.table[id].digest)))
            && s.journal == s.rows[..|s.journal|]
  {
    hide Run, ValidShape, RowAgrees, Audited, FactsOf;
    EmptyInv(digest);
    InvKept(digest, EMPTY, steps);
    NewestAgrees(digest, Run(digest, EMPTY, steps), id);
  }

  lemma EmptyInv(digest: Receipt -> string)
    ensures Inv(digest, EMPTY)
  {
  }

  lemma NewestAgrees(digest: Receipt -> string, s: Store, id: string)
    requires Inv(digest, s)
    ensures |FactsOf(s.rows, id)| <= 2
    ensures id in s.table <==> FactsOf(s.rows, id) != []
    ensures id in s.table ==> (s.table[id].eligible <==> Audited(s.rows, id, s.table[id].digest))
  {
    hide ValidShape, FactsOf, FactSound;
    assert RowAgrees(s, id);
  }

  // ---- Invalidation is permanent ----

  lemma {:induction false} InvalidForever(digest: Receipt -> string, s: Store, steps: seq<Step>, id: string)
    requires id in s.table && !s.table[id].eligible
    ensures var t := Run(digest, s, steps); id in t.table && t.table[id] == s.table[id]
    ensures forall now :: Qualification(digest, Run(digest, s, steps), id, now) == Ok(None)
    decreases |steps|
  {
    hide ValidShape, Eligible, Audited;
    if steps != [] {
      InvalidForever(digest, Apply(digest, s, steps[0]), steps[1..], id);
    }
  }

  // ---- Reading a qualification ----

  /** When the newest fact of a deployment was recorded. */
  function RecordedAt(rows: seq<Fact>, id: string): int {
    var newest := Newest(rows, id);
    if newest.Some? && newest.value.Fact? then newest.value.at else 0
  }

  /**
   With memory in step, a read never meets contradictory evidence: it fails only when the clock is
   behind the fact, and yields the recorded receipt exactly while that is eligible.
   */
  lemma QualifiedExactly(digest: Receipt -> string, s: Store, id: string, now: U64)
    requires Inv(digest, s) && s.journal == s.rows
    ensures var r := Qualification(digest, s, id, now);
            var live := id in s.table && s.table[id].eligible;
            && (r.Err? <==> live && now < RecordedAt(s.rows, id)) && (r.Err? ==> r.error == InvalidDeployment)
            && (r.Ok? && r.value.Some? <==> live && RecordedAt(s.rows, id) <= now && Eligible(s.table[id].receipt, now))
            && (r.Ok? && r.value.Some? ==> r.value.value == s.table[id].receipt && Audited(s.rows, id, digest(r.value.value)))
  {
    hide ValidShape, Eligible, FactsOf, RowAgrees, Assessed;
    NewestAgrees(digest, s, id);
  }

  /**
   Whatever the database holds: an eligible row is an error, and never read as a qualification, if its
   newest fact does not accept its digest, or its receipt is malformed, another deployment's or another's digest.
   */
  lemma CorruptRowRefused(digest: Receipt -> string, s: Store, id: string, now: U64)
    requires id in s.table && s.table[id].eligible
    requires var (row, newest) := (s.table[id], Newest(s.journal, id));
             || newest.None? || !newest.value.Fact? || !newest.value.eligible || newest.value.digest != row.digest
             || !ValidShape(row.receipt) || row.receipt.id != id || digest(row.receipt) != row.digest
    ensures Qualification(digest, s, id, now) == Err(InvalidDeployment)
  {
    hide ValidShape, Eligible, Newest;
  }

  // ---- Imports are confluent ----

  /** Importing a list of receipts at one time. */
  function Import(digest: Receipt -> string, s: Store, receipts: seq<Receipt>, now: U64): Store
    decreases |receipts|
  {
    if receipts == [] then s else Import(digest, RecordTx(digest, s, receipts[0], now).1, receipts[1..], now)
  }

  /** Receipts are imported one behind the other. */
  lemma {:induction false} ImportAppends(digest: Receipt -> string, s: Store, receipts: seq<Receipt>, r: Receipt, now: U64)
    ensures Import(digest, s, [], now) == s
    ensures Import(digest, s, receipts + [r], now) == RecordTx(digest, Import(digest, s, receipts, now), r, now).1
    decreases |receipts|
  {
    hide RecordTx;
    if receipts == [] {
      assert [r][1..] == [];
    } else {
      assert (receipts + [r])[1..] == receipts[1..] + [r];
      ImportAppends(digest, RecordTx(digest, s, receipts[0], now).1, receipts[1..], r, now);
    }
  }

  predicate Concerns(r: Receipt, id: string) {
    r.id == id && ValidShape(r)
  }

  /** The well-formed receipts of one deployment among those imported, whatever their order or number. */
  function Concerning(receipts: seq<Receipt>, id: string): set<Receipt> {
    set r | r in receipts && Concerns(r, id)
  }

  lemma ConcerningHead(receipts: seq<Receipt>, id: string)
    requires receipts != []
    ensures Concerning(receipts, id) == (if Concerns(receipts[0], id) then {receipts[0]} else {}) + Concerning(receipts[1..], id)
  {
    hide Concerns;
    assert receipts == [receipts[0]] + receipts[1..];
  }

  /** What one import does to one deployment's row, with memory in step. */
  lemma RecordEffect(digest: Receipt -> string, s: Store, r: Receipt, now: U64, id: string)
    requires Inv(digest, s) && s.journal == s.rows && |s.rows| < MAX_SEQUENCE
    ensures var t := RecordTx(digest, s, r, now).1;
            && t.journal == t.rows && |t.rows| <= |s.rows| + 1 && Inv(digest, t)
            && (id in t.table <==> id in s.table || Concerns(r, id))
            && (id in s.table ==>
                  t.table[id] == if Concerns(r, id) && digest(r) != s.table[id].digest then s.table[id].(eligible := false) else s.table[id])
            && (id !in s.table && Concerns(r, id) ==> t.table[id] == Row(digest(r), r, Eligible(r, now)))
  {
    hide ValidShape, Eligible, FactsOf, Inv;
    RecordKeepsInv(digest, s, r, now);
    NewestAgrees(digest, s, r.id);
    NewestAgrees(digest, s, id);
  }

  /** Behind a recorded receipt, only imports with another digest matter. */
  lemma {:induction false} ImportBehind(digest: Receipt -> string, s: Store, receipts: seq<Receipt>, now: U64, id: string)
    requires Inv(digest, s) && s.journal == s.rows && |s.rows| + |receipts| <= MAX_SEQUENCE && id in s.table
    ensures var t := Import(digest, s, receipts, now);
            && id in t.table && t.table[id].digest == s.table[id].digest
            && (t.table[id].eligible <==>
                (s.table[id].eligible && forall r | r in Concerning(receipts, id) :: digest(r) == s.table[id].digest))
    decreases |receipts|
  {
    hide Inv, RecordTx, Concerns, Concerning;
    if receipts == [] {
      assert Concerning(receipts, id) == {} by { NothingConcerns(id); }
    } else {
      ConcerningHead(receipts, id);
      RecordEffect(digest, s, receipts[0], now, id);
      ImportBehind(digest, RecordTx(digest, s, receipts[0], now).1, receipts[1..], now, id);
    }
  }

  lemma NothingConcerns(id: string)
    ensures Concerning([], id) == {}
  {
  }

  ghost predicate Injective(digest: Receipt -> string) {
    forall a, b :: digest(a) == digest(b) ==> a == b
  }

  /**
   Confluence: after importing receipts of any deployments at one time into a journal that does not
   know this one, it is eligible if and only if exactly one receipt concerned it and that receipt is
   eligible. Order and repetition do not matter.
   */
  lemma {:induction false} ImportConfluent(digest: Receipt -> string, s: Store, receipts: seq<Receipt>, now: U64, id: string)
    requires Injective(digest)
    requires Inv(digest, s) && s.journal == s.rows && |s.rows| + |receipts| <= MAX_SEQUENCE && id !in s.table
    ensures var t := Import(digest, s, receipts, now);
            && (id in t.table <==> Concerning(receipts, id) != {})
            && (id in t.table && t.table[id].eligible <==> exists r :: Concerning(receipts, id) == {r} && Eligible(r, now))
    decreases |receipts|
  {
    hide Inv, RecordTx, Concerns, Concerning, Eligible;
    if receipts == [] {
      NothingConcerns(id);
    } else {
      var r := receipts[0];
      ConcerningHead(receipts, id);
      RecordEffect(digest, s, r, now, id);
      var u := RecordTx(digest, s, r, now).1;
      if Concerns(r, id) {
        ImportBehind(digest, u, receipts[1..], now, id);
        OnlyOne(digest, Concerning(receipts[1..], id), r);
      } else {
        ImportConfluent(digest, u, receipts[1..], now, id);
        assert Concerning(receipts, id) == Concerning(receipts[1..], id);
      }
    }
  }

  lemma OnlyOne(digest: Receipt -> string, others: set<Receipt>, r: Receipt)
    requires Injective(digest)
    ensures (forall x | x in others :: digest(x) == digest(r)) <==> {r} + others == {r}
    ensures forall x :: {r} + others == {x} ==> x == r
  {
    assert r in {r} + others;
    if {r} + others == {r} {
      assert forall x | x in others :: x in {r};
    }
  }

  // ---- What a receipt must be, and what an import answers and leaves ----

  /**
   A receipt is eligible if and only if the deployment succeeded as declared and observed and its
   health covers the window of a policy declared before it completed, read at an accepting time.
   */
  lemma EligibleExactly(r: Receipt, now: U64)
    ensures Eligible(r, now) <==>
              && r.succeeded && !r.revoked && r.policyDeclaredAt < r.completedAt
              && r.commit == r.observedCommit && r.image == r.observedImage && Evidence(r.policy, r.completedAt, r.samples)
              && r.samples[|r.samples| - 1].at <= now
              && r.completedAt + r.policy.window <= now <= r.completedAt + r.policy.window + r.policy.maxAge
  {
    hide Assessed, Evidence;
    AcceptedExactly(r.policy, r.completedAt, now, r.samples);
  }

  ghost predicate GitObject(s: string) {
    (|s| == 40 || |s| == 64) && forall i | 0 <= i < |s| :: s[i] in "0123456789abcdef"
  }

  /** A receipt is well-formed if and only if it names the pilot, plain identifiers and pinned images, within the bounds. */
  lemma ShapeExactly(r: Receipt)
    ensures ValidShape(r) <==>
              && r.schema == "ai-sre/deployment-receipt/v1" && r.repository == "bodhispace-xyz/bodhispace-homelab" && r.service == "utility/it-tools"
              && 1 <= |r.id| <= 128 && (forall i | 0 <= i < |r.id| :: Text.IsAlphanumeric(r.id[i]) || r.id[i] in "-_")
              && GitObject(r.commit) && GitObject(r.observedCommit) && PinnedImage(r.image) && PinnedImage(r.observedImage)
              && r.completedAt <= 0x7FFF_FFFF_FFFF_FFFF && |r.samples| <= 10000
  {
    hide C.ValidImage, PinnedImage, Text.LowerHex;
    Text.LowerHexExactly(r.commit);
    Text.LowerHexExactly(r.observedCommit);
    PinnedExactly(r.image);
    PinnedExactly(r.observedImage);
  }

  ghost predicate PinnedImage(image: string) {
    exists digest :: |digest| == 64 && image == "ghcr.io/corentinth/it-tools@sha256:" + digest
                     && forall i | 0 <= i < 64 :: digest[i] in "0123456789abcdef"
  }

  lemma PinnedExactly(image: string)
    ensures C.ValidImage(image) <==> PinnedImage(image)
  {
    hide C.ValidImage;
    C.ImageExactly(image);
  }

  /** Why a fact accepts or refuses. */
  ghost function ReasonOf(r: Receipt, first: bool, eligible: bool): Reason {
    match (r.revoked, first, eligible)
    case (true, _, _) => Revoked
    case (false, true, true) => Qualified
    case (false, true, false) => FailedInitialAssessment
    case (false, false, _) => ContradictoryReceipt
  }

  /**
   With memory in step: an import is refused if and only if its receipt is malformed or a fact of it
   finds no sequence. Nothing is recorded of an ineligible deployment or of a receipt known already;
   otherwise one fact is, in table and memory, and the receipt is kept under its digest.
   */
  lemma RecordsExactly(digest: Receipt -> string, s: Store, r: Receipt, now: U64)
    requires Inv(digest, s) && s.journal == s.rows
    ensures var (answer, t) := RecordTx(digest, s, r, now);
            var known := r.id in s.table;
            var repeated := known && (!s.table[r.id].eligible || s.table[r.id].digest == digest(r));
            if !ValidShape(r) then answer == Err(InvalidDeployment) && t == s
            else if repeated then answer == Ok(s.table[r.id].eligible && Eligible(r, now)) && t == s
            else if |s.rows| > 0x7FFF_FFFF_FFFF_FFFF then answer == Err(NonContiguousSequence) && t == s
            else
              var eligible := !known && Eligible(r, now);
              && answer == Ok(eligible) && t.rows == s.rows + [Fact(r.id, digest(r), eligible, ReasonOf(r, !known, eligible), now)]
              && t.journal == t.rows
              && t.audit.Keys == s.audit.Keys + {digest(r)}
              && (forall d | d in t.audit :: t.audit[d] == if d in s.audit then s.audit[d] else r)
              && t.table.Keys == s.table.Keys + {r.id} && (forall id | id in s.table && id != r.id :: t.table[id] == s.table[id])
  {
    hide ValidShape, Eligible, FactsOf, Inv;
    NewestAgrees(digest, s, r.id);
    RevokedNotEligible(r, now);
  }

  /** Memory that misses a fact records nothing until the next start. */
  lemma StaleMemoryRecordsNothing(digest: Receipt -> string, s: Store, r: Receipt, now: U64)
    requires |s.journal| < |s.rows|
    ensures RecordTx(digest, s, r, now).1 == s
  {
    hide ValidShape, Eligible, Audited;
  }
}
