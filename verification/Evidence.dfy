/**
 The run-scoped evidence board (src/reasoning/evidence.rs): bounded, redacted, append-only records
 under deterministic identifiers, the only things a report may cite.
 */
module Evidence {
  import opened Outcomes
  import opened Decimal
  import Redactor
  import Secrets
  import Text

  const MAX_PAYLOAD_BYTES: nat := 64 * 1024
  const MAX_QUERY_BYTES: nat := 4 * 1024
  const MAX_RECORDS: nat := 64

  const BINARY: string := "[REDACTED_BINARY_PAYLOAD]"

  /** A payload as the decoders take it; the redaction of a JSON document, field by field, is an input. */
  datatype Payload = Binary(size: nat) | Json(size: nat, redacted: string) | Plain(text: string)

  function Size(p: Payload): nat {
    match p
    case Binary(size) => size
    case Json(size, _) => size
    case Plain(text) => Text.Utf8Length(text)
  }

  /** `redact_payload`. */
  function RedactPayload(p: Payload): string {
    match p
    case Binary(_) => BINARY
    case Json(_, redacted) => redacted
    case Plain(text) => Redactor.Redacted(text)
  }

  datatype Record = Record(id: string, query: string, payload: string)

  datatype EvidenceError = EmptyPayload | PayloadTooLarge | QueryTooLarge | RecordLimitExceeded

  function Zeros(n: nat): (s: string)
    ensures |s| == n && AllDigits(s)
  {
    if n == 0 then "" else Zeros(n - 1) + "0"
  }

  /** `format!("evidence-{n:04}")`. */
  function EvidenceId(n: nat): string {
    var digits := Print(n);
    "evidence-" + (if |digits| < 4 then Zeros(4 - |digits|) else "") + digits
  }

  lemma {:induction false} LeadingZeros(n: nat, s: string)
    requires AllDigits(s)
    ensures AllDigits(Zeros(n) + s) && Value(Zeros(n) + s) == Value(s)
    decreases n + |s|
  {
    var padded := Zeros(n) + s;
    if s != "" {
      LeadingZeros(n, s[..|s| - 1]);
      assert padded[..|padded| - 1] == Zeros(n) + s[..|s| - 1];
    } else if n > 0 {
      LeadingZeros(n - 1, "");
      assert padded == Zeros(n - 1) + "0" && padded[..|padded| - 1] == Zeros(n - 1) + "";
    }
  }

  /** Different numbers never share an identifier, padded or not. */
  lemma IdsDistinct(m: nat, n: nat)
    ensures EvidenceId(m) == EvidenceId(n) ==> m == n
  {
    NumberOfId(m);
    NumberOfId(n);
  }

  lemma NumberOfId(n: nat)
    ensures AllDigits(EvidenceId(n)[9..]) && Value(EvidenceId(n)[9..]) == n
  {
    var digits := Print(n);
    PrintValue(n);
    LeadingZeros(if |digits| < 4 then 4 - |digits| else 0, digits);
    assert EvidenceId(n)[9..] == Zeros(if |digits| < 4 then 4 - |digits| else 0) + digits;
  }

  function Ids(records: seq<Record>): set<string> {
    set r | r in records :: r.id
  }

  /** `commit_with_metadata`, without the source and the metadata that travel with the record. */
  function CommitTx(records: seq<Record>, query: string, payload: Payload): Result<(seq<Record>, string), EvidenceError> {
    if Size(payload) == 0 then Err(EmptyPayload)
    else if |records| >= MAX_RECORDS then Err(RecordLimitExceeded)
    else if Size(payload) > MAX_PAYLOAD_BYTES then Err(PayloadTooLarge) else
    var shown := Redactor.Redacted(query);
    if Text.Utf8Length(shown) > MAX_QUERY_BYTES then Err(QueryTooLarge) else
    var kept := RedactPayload(payload);
    if kept == "" then Err(EmptyPayload)
    else if Text.Utf8Length(kept) > MAX_PAYLOAD_BYTES then Err(PayloadTooLarge)
    else
      var id := EvidenceId(|records| + 1);
      Ok((records + [Record(id, shown, kept)], id))
  }

  /** At most 64 records, bounded after redaction, numbered from one in commit order. */
  ghost predicate BoardInv(records: seq<Record>) {
    && |records| <= MAX_RECORDS
    && forall i | 0 <= i < |records| ::
         && records[i].id == EvidenceId(i + 1)
         && Text.Utf8Length(records[i].query) <= MAX_QUERY_BYTES
         && 0 < Text.Utf8Length(records[i].payload) <= MAX_PAYLOAD_BYTES
  }

  lemma CommitAppends(records: seq<Record>, query: string, payload: Payload)
    ensures var r := CommitTx(records, query, payload);
            r.Ok? ==> exists x: Record ::
                        && r.value == (records + [x], EvidenceId(|records| + 1)) && x.id == r.value.1 && |records| < MAX_RECORDS
                        && Text.Utf8Length(x.query) <= MAX_QUERY_BYTES && 0 < Text.Utf8Length(x.payload) <= MAX_PAYLOAD_BYTES
  {
    hide Redactor.Redacted, EvidenceId, Text.Utf8Length, Size, RedactPayload;
    var r := CommitTx(records, query, payload);
    if r.Ok? {
      var x := Record(r.value.1, Redactor.Redacted(query), RedactPayload(payload));
      assert r.value.0 == records + [x];
    }
  }

  /** The board is append-only. */
  lemma CommitExtends(records: seq<Record>, query: string, payload: Payload)
    ensures CommitTx(records, query, payload).Ok? ==> records <= CommitTx(records, query, payload).value.0
  {
    hide CommitTx;
    CommitAppends(records, query, payload);
  }

  lemma IdsAppend(records: seq<Record>, x: Record)
    ensures Ids(records + [x]) == Ids(records) + {x.id}
  {
    var longer := records + [x];
    assert longer[|records|] == x;
    forall y | y in records ensures y.id in Ids(longer) {
      assert y in longer;
    }
  }

  /** The next identifier is one no record has. */
  lemma NextIdFresh(records: seq<Record>)
    requires BoardInv(records)
    ensures EvidenceId(|records| + 1) !in Ids(records)
  {
    hide EvidenceId;
    forall i | 0 <= i < |records| ensures records[i].id != EvidenceId(|records| + 1) {
      IdsDistinct(i + 1, |records| + 1);
    }
  }

  /** A commit appends one record under an identifier no record had; a refused commit appends none. */
  lemma CommitKeepsBoard(records: seq<Record>, query: string, payload: Payload)
    requires BoardInv(records)
    ensures var r := CommitTx(records, query, payload);
            r.Ok? ==> && BoardInv(r.value.0) && records <= r.value.0 && r.value.1 !in Ids(records)
                      && Ids(r.value.0) == Ids(records) + {r.value.1}
  {
    hide CommitTx, EvidenceId, Ids, Text.Utf8Length;
    var r := CommitTx(records, query, payload);
    if r.Ok? {
      CommitAppends(records, query, payload);
      var x: Record :| r.value == (records + [x], EvidenceId(|records| + 1)) && x.id == r.value.1 && |records| < MAX_RECORDS
                       && Text.Utf8Length(x.query) <= MAX_QUERY_BYTES && 0 < Text.Utf8Length(x.payload) <= MAX_PAYLOAD_BYTES;
      NextIdFresh(records);
      IdsAppend(records, x);
    }
  }

  /** Two commits tell the redactions of their queries apart. */
  lemma CommitsShowQueries(records: seq<Record>, a: string, b: string, payload: Payload)
    ensures Redactor.Redacted(a) == Redactor.Redacted(b) ==> CommitTx(records, a, payload) == CommitTx(records, b, payload)
    ensures Redactor.Redacted(a) != Redactor.Redacted(b) && CommitTx(records, a, payload).Ok? ==>
              CommitTx(records, a, payload) != CommitTx(records, b, payload)
  {
    hide Redactor.Redacted, EvidenceId, Text.Utf8Length;
    var (r, q) := (CommitTx(records, a, payload), CommitTx(records, b, payload));
    if r.Ok? && q.Ok? {
      assert r.value.0[|records|].query == Redactor.Redacted(a) && q.value.0[|records|].query == Redactor.Redacted(b);
    }
  }

  /** One value of the key or another, any commit of the query ends the same. */
  ghost predicate CommitsAlike(t: string, v: string, w: string, rest: string) {
    forall records, payload :: CommitTx(records, t + (v + rest), payload) == CommitTx(records, t + (w + rest), payload)
  }

  /** Any commit that keeps the query of the one value differs from the commit of the other. */
  ghost predicate CommitsTell(t: string, v: string, w: string, rest: string) {
    forall records, payload | CommitTx(records, t + (v + rest), payload).Ok? ::
      CommitTx(records, t + (v + rest), payload) != CommitTx(records, t + (w + rest), payload)
  }

  /**
   A query's secret leaves no trace on the board, in its record, its identifier or its acceptance, if
   the scan drops what a value may hold where the value begins; if not, the board tells two values apart.
   */
  lemma QuerySecretsHiddenExactly(pre: string, key: string, head: string, rest: string)
    requires Redactor.IsHead(key, head) && (rest != "" ==> !Redactor.In(Redactor.Value(key == "authorization"), rest[0]))
    ensures var (t, authorization) := (pre + head, key == "authorization");
            if Secrets.Hides(Secrets.StandingAt(true, t), Redactor.Value(authorization))
            then forall v, w | Redactor.IsValue(authorization, v, rest) && Redactor.IsValue(authorization, w, rest) ::
                   CommitsAlike(t, v, w, rest)
            else exists v, w ::
                   Redactor.IsValue(authorization, v, rest) && Redactor.IsValue(authorization, w, rest) && CommitsTell(t, v, w, rest)
  {
    hide Redactor.Redacted, Redactor.IsHead, Redactor.IsValue, Secrets.StandingAt, Secrets.Hides, CommitTx;
    var (t, authorization) := (pre + head, key == "authorization");
    Secrets.ValuesHiddenExactly(pre, key, head, rest);
    forall v, w | Redactor.IsValue(authorization, v, rest) && Redactor.IsValue(authorization, w, rest)
      ensures Redactor.Redacted(t + (v + rest)) == Redactor.Redacted(t + (w + rest)) ==> CommitsAlike(t, v, w, rest)
      ensures Redactor.Redacted(t + (v + rest)) != Redactor.Redacted(t + (w + rest)) ==> CommitsTell(t, v, w, rest)
    {
      forall records, payload
        ensures Redactor.Redacted(t + (v + rest)) == Redactor.Redacted(t + (w + rest)) ==>
                  CommitTx(records, t + (v + rest), payload) == CommitTx(records, t + (w + rest), payload)
        ensures Redactor.Redacted(t + (v + rest)) != Redactor.Redacted(t + (w + rest))
                && CommitTx(records, t + (v + rest), payload).Ok? ==>
                  CommitTx(records, t + (v + rest), payload) != CommitTx(records, t + (w + rest), payload)
      {
        CommitsShowQueries(records, t + (v + rest), t + (w + rest), payload);
      }
    }
  }

  class EvidenceBoard {
    var records: seq<Record>

    constructor ()
      ensures records == []
    {
      records := [];
    }

    method Commit(query: string, payload: Payload) returns (r: Result<string, EvidenceError>)
      modifies this
      ensures match CommitTx(old(records), query, payload)
              case Ok(out) => r == Ok(out.1) && records == out.0
              case Err(e) => r == Err(e) && records == old(records)
    {
      hide Redactor.Redacted, Redactor.Scan, Text.Utf8Length, Text.Utf8Size, EvidenceId, Size, Zeros, Print;
      if Size(payload) == 0 { return Err(EmptyPayload); }
      if |records| >= MAX_RECORDS { return Err(RecordLimitExceeded); }
      if Size(payload) > MAX_PAYLOAD_BYTES { return Err(PayloadTooLarge); }
      var shown := Redactor.RedactText(query);
      if Text.Utf8Length(shown) > MAX_QUERY_BYTES { return Err(QueryTooLarge); }
      var kept;
      match payload {
        case Binary(_) => kept := BINARY;
        case Json(_, redacted) => kept := redacted;
        case Plain(text) => kept := Redactor.RedactText(text);
      }
      if kept == "" { return Err(EmptyPayload); }
      if Text.Utf8Length(kept) > MAX_PAYLOAD_BYTES { return Err(PayloadTooLarge); }
      var id := EvidenceId(|records| + 1);
      records := records + [Record(id, shown, kept)];
      return Ok(id);
    }
  }

  // ---- What a commit accepts and keeps, exactly ----

  /** An identifier is "evidence-" and the number, in at least four digits. */
  lemma IdExactly(n: nat)
    ensures var id := EvidenceId(n);
            && |id| >= 13 && id[..9] == "evidence-" && AllDigits(id[9..]) && Value(id[9..]) == n
            && (|id| > 13 ==> id[9..] == Print(n))
  {
    NumberOfId(n);
    assert EvidenceId(n)[..9] == "evidence-";
    var digits := Print(n);
    if |digits| >= 4 {
      assert "evidence-" + "" + digits == "evidence-" + digits;
      assert EvidenceId(n)[9..] == digits;
    }
  }

  /**
   A commit is accepted if and only if the payload has 1 byte to 64 KiB before and after redaction, fewer
   than 64 records are there and the redacted query has at most 4 KiB; the refusals come in this order:
   no payload, no room, payload too large, query too large, and the same again of what was kept.
   */
  lemma CommitsExactly(records: seq<Record>, query: string, payload: Payload)
    ensures var r := CommitTx(records, query, payload);
            var (size, shown, kept) := (Size(payload), Redactor.Redacted(query), RedactPayload(payload));
            var taken := 0 < size <= 64 * 1024 && |records| < 64 && Text.Utf8Length(shown) <= 4 * 1024;
            && (r.Ok? <==> taken && 0 < |kept| && Text.Utf8Length(kept) <= 64 * 1024)
            && (r.Ok? ==> r.value == (records + [Record(EvidenceId(|records| + 1), shown, kept)], EvidenceId(|records| + 1)))
            && (r == Err(EmptyPayload) <==> size == 0 || (taken && kept == ""))
            && (r == Err(RecordLimitExceeded) <==> size > 0 && |records| >= 64)
            && (r == Err(PayloadTooLarge) <==> (|records| < 64 && size > 64 * 1024) || (taken && Text.Utf8Length(kept) > 64 * 1024))
            && (r == Err(QueryTooLarge) <==> 0 < size <= 64 * 1024 && |records| < 64 && Text.Utf8Length(shown) > 4 * 1024)
  {
    hide Redactor.Redacted, Size, RedactPayload, EvidenceId;
    assert Text.Utf8Length("") == 0;
  }

  /** What is kept of a payload: nothing of binary data, and text as the scan writes it. */
  lemma KeptExactly(p: Payload)
    ensures match p
            case Binary(size) => Size(p) == size && RedactPayload(p) == "[REDACTED_BINARY_PAYLOAD]"
            case Json(size, redacted) => Size(p) == size && RedactPayload(p) == redacted
            case Plain(text) => Size(p) == Text.Utf8Length(text) && RedactPayload(p) == Redactor.Redacted(text)
  {
    hide Redactor.Redacted;
  }
}
