/**
 The incident lifecycle dispatcher (src/reasoning/dispatcher.rs): live state per correlation key,
 the journal of lifecycle facts, and the state a restart rebuilds from that journal.
 */
module Dispatcher {
  import opened Outcomes
  import opened IncidentId
  import opened Calendar
  import Text

  const MAX_SEQUENCE: nat := 0x7fff_ffff_ffff_ffff

  datatype Alert = FiringAlert | ResolvedAlert

  /** A normalized signal; `payload` holds its name, labels and annotations. */
  datatype Signal = Signal(key: string, incidentId: string, episode: nat, alert: Alert, payload: string,
                           time: string, source: string, timeMs: Option<int>)

  datatype Lifecycle =
    | Firing(episode: nat, completed: bool, time: string, timeMs: Option<int>, source: string)
    | Resolved(episode: nat, time: string, timeMs: Option<int>, source: string)

  datatype Event =
    | Opened(id: string, payload: string, time: string, source: string)
    | Deduplicated(id: string, time: string, source: string)
    | OutOfOrder(id: string, alert: Alert, time: string, source: string)
    | Recovered(id: string, time: string, source: string)
    | Completed(id: string)
    | Resumed(id: string, time: string, source: string)
    | OtherFact(tag: string)

  datatype Outcome = Accepted | Dedup | Resume

  datatype DispatchError = Journal | InvalidSignal

  datatype State = State(journal: seq<Event>, lifecycle: map<string, Lifecycle>)

  const EMPTY: State := State([], map[])

  /** What `normalize` makes of any alert: the first identifier of its key and its own parsed time. */
  predicate Normalized(s: Signal) {
    s.incidentId == Id(s.key, 1) && s.episode == 1 && s.timeMs == ParseMillis(s.time)
  }

  // ---- Rebuilding from the journal ----

  function Replay(m: map<string, Lifecycle>, e: Event): map<string, Lifecycle> {
    match e
    case Opened(id, _, time, source) =>
      m[CorrelationKey(id) := Firing(EpisodeNumber(id), false, time, ParseMillis(time), source)]
    case Recovered(id, time, source) =>
      m[CorrelationKey(id) := Resolved(EpisodeNumber(id), time, ParseMillis(time), source)]
    case Completed(id) => Complete(m, CorrelationKey(id))
    case Resumed(id, time, source) =>
      var key := CorrelationKey(id);
      if key in m && m[key].Firing?
      then m[key := Firing(m[key].episode, m[key].completed, time, ParseMillis(time), source)] else m
    case _ => m
  }

  function Complete(m: map<string, Lifecycle>, key: string): map<string, Lifecycle> {
    if key in m && m[key].Firing? then m[key := m[key].(completed := true)] else m
  }

  function Rebuild(journal: seq<Event>): map<string, Lifecycle> {
    if journal == [] then map[] else Replay(Rebuild(journal[..|journal| - 1]), journal[|journal| - 1])
  }

  // ---- Processing one signal ----

  datatype Verdict = Verdict(event: Event, next: Option<Lifecycle>, signal: Signal, outcome: Outcome)

  /** The fact, the next state and the answer one signal earns in the current state of its key. */
  function Judge(current: Option<Lifecycle>, s: Signal): Verdict
    requires s.timeMs.Some?
  {
    var firing := (episode: nat) => Some(Firing(episode, false, s.time, s.timeMs, s.source));
    var resolved := (episode: nat) => Some(Resolved(episode, s.time, s.timeMs, s.source));
    if current.Some? && current.value.timeMs.Some? && s.timeMs.value < current.value.timeMs.value then
      Verdict(OutOfOrder(s.incidentId, s.alert, s.time, s.source), None, s, Dedup)
    else if current.None? then
      if s.alert.FiringAlert? then Verdict(Opened(s.incidentId, s.payload, s.time, s.source), firing(s.episode), s, Accepted)
      else Verdict(Recovered(s.incidentId, s.time, s.source), resolved(s.episode), s, Accepted)
    else
      var e := current.value.episode;
      var same := s.(episode := e, incidentId := Id(s.key, e));
      var later := s.(episode := e + 1, incidentId := PREFIX + s.key + SEPARATOR + Decimal.Print(e + 1));
      match (s.alert, current.value)
      case (FiringAlert, Firing(_, completed, _, _, source)) =>
        if !completed then Verdict(Resumed(same.incidentId, s.time, s.source), firing(e), same, Resume)
        else if s.source == source then Verdict(Deduplicated(s.incidentId, s.time, s.source), None, s, Dedup)
        else Verdict(Opened(later.incidentId, s.payload, s.time, s.source), firing(e + 1), later, Accepted)
      case (FiringAlert, Resolved(_, _, _, _)) =>
        Verdict(Opened(later.incidentId, s.payload, s.time, s.source), firing(e + 1), later, Accepted)
      case (ResolvedAlert, Firing(_, _, _, _, _)) =>
        Verdict(Recovered(same.incidentId, s.time, s.source), resolved(e), same, Accepted)
      case (ResolvedAlert, Resolved(_, _, _, _)) =>
        Verdict(Deduplicated(same.incidentId, s.time, s.source), resolved(e), same, Dedup)
  }

  function Lookup(m: map<string, Lifecycle>, key: string): Option<Lifecycle> {
    if key in m then Some(m[key]) else None
  }

  /** The durable fact comes first; when it cannot be written nothing changes. */
  function ProcessTx(d: State, s: Signal, writable: bool): Result<(State, Signal, Outcome), DispatchError> {
    if s.timeMs.None? then Err(InvalidSignal)
    else if !writable || |d.journal| > MAX_SEQUENCE then Err(Journal)
    else
      var v := Judge(Lookup(d.lifecycle, s.key), s);
      Ok((State(d.journal + [v.event], if v.next.Some? then d.lifecycle[s.key := v.next.value] else d.lifecycle),
          v.signal, v.outcome))
  }

  function CompleteTx(d: State, id: string, writable: bool): Result<State, DispatchError> {
    if !writable || |d.journal| > MAX_SEQUENCE then Err(Journal)
    else Ok(State(d.journal + [Completed(id)], Complete(d.lifecycle, CorrelationKey(id))))
  }

  datatype Op =
    | Process(signal: Signal, writable: bool)
    | MarkCompleted(id: string, writable: bool)
    | OtherAppend(tag: string)
    | Restart

  function Apply(d: State, op: Op): State {
    match op
    case Process(s, writable) => (match ProcessTx(d, s, writable) case Ok(out) => out.0 case Err(_) => d)
    case MarkCompleted(id, writable) => (match CompleteTx(d, id, writable) case Ok(t) => t case Err(_) => d)
    case OtherAppend(tag) => d.(journal := d.journal + [OtherFact(tag)])
    case Restart => State(d.journal, Rebuild(d.journal))
  }

  function Run(d: State, ops: seq<Op>): State
    decreases |ops|
  {
    if ops == [] then d else Run(Apply(d, ops[0]), ops[1..])
  }

  /** A history is made of its steps, each taken where the one before ended; a refused one changes nothing. */
  lemma {:induction false} RunAppends(d: State, ops: seq<Op>, op: Op)
    ensures Run(d, []) == d
    ensures var (t, u) := (Run(d, ops), Run(d, ops + [op]));
            match op
            case Process(s, writable) => u == if ProcessTx(t, s, writable).Ok? then ProcessTx(t, s, writable).value.0 else t
            case MarkCompleted(id, writable) => u == if CompleteTx(t, id, writable).Ok? then CompleteTx(t, id, writable).value else t
            case OtherAppend(tag) => u == State(t.journal + [OtherFact(tag)], t.lifecycle)
            case Restart => u == State(t.journal, Rebuild(t.journal))
    decreases |ops|
  {
    hide ProcessTx, CompleteTx, Rebuild;
    if ops == [] {
      assert [op][1..] == [];
    } else {
      assert (ops + [op])[1..] == ops[1..] + [op];
      RunAppends(Apply(d, ops[0]), ops[1..], op);
    }
  }

  /** Every signal is normalized and its key prints readably. */
  ghost predicate PlainOps(ops: seq<Op>) {
    forall i | 0 <= i < |ops| && ops[i].Process? :: Normalized(ops[i].signal) && PlainKey(ops[i].signal.key)
  }

  // ---- What one signal does, exactly ----

  /** Older than what its key has already seen. */
  ghost predicate Stale(d: State, s: Signal) {
    s.key in d.lifecycle && s.timeMs.Some? && d.lifecycle[s.key].timeMs.Some? && s.timeMs.value < d.lifecycle[s.key].timeMs.value
  }

  /** Behind the guards: a readable time and a journal that can be written. */
  ghost predicate Receivable(d: State, s: Signal, writable: bool) {
    s.timeMs.Some? && writable && |d.journal| <= 0x7fff_ffff_ffff_ffff
  }

  lemma RefusedExactly(d: State, s: Signal, writable: bool)
    ensures ProcessTx(d, s, writable).Ok? <==> Receivable(d, s, writable)
    ensures ProcessTx(d, s, writable).Err? ==>
              ProcessTx(d, s, writable).error == if s.timeMs.None? then InvalidSignal else Journal
  {
  }

  /**
   A firing signal opens an episode of its key if and only if it is not stale and the key is unknown,
   resolved, or completed by an alert of another source; the episode is then the key's next, unfinished,
   and shows the signal.
   */
  lemma OpensExactly(d: State, s: Signal)
    requires Receivable(d, s, true)
    ensures var (t, signal, outcome) := ProcessTx(d, s, true).value;
            var known := s.key in d.lifecycle;
            var e := if known then d.lifecycle[s.key].episode + 1 else s.episode;
            var id := if known then PREFIX + s.key + SEPARATOR + Decimal.Print(e) else s.incidentId;
            && |t.journal| == |d.journal| + 1 && t.journal[..|d.journal|] == d.journal
            && (t.journal[|d.journal|].Opened? <==>
                  && s.alert.FiringAlert? && !Stale(d, s)
                  && (!known || d.lifecycle[s.key].Resolved? || (d.lifecycle[s.key].completed && d.lifecycle[s.key].source != s.source)))
            && (t.journal[|d.journal|].Opened? ==>
                  && outcome == Accepted && signal == s.(episode := e, incidentId := id)
                  && t.journal[|d.journal|] == Opened(id, s.payload, s.time, s.source)
                  && t.lifecycle == d.lifecycle[s.key := Firing(e, false, s.time, s.timeMs, s.source)])
  {
    hide ParseMillis, CorrelationKey, EpisodeNumber;
  }

  /** Every other signal: what is recorded, what the key shows then, and what is answered. */
  lemma OtherwiseExactly(d: State, s: Signal)
    requires Receivable(d, s, true) && s.key in d.lifecycle
    ensures var (t, signal, outcome) := ProcessTx(d, s, true).value;
            var (fact, was) := (t.journal[|d.journal|], d.lifecycle[s.key]);
            var same := s.(episode := was.episode, incidentId := Id(s.key, was.episode));
            && (Stale(d, s) ==>
                  fact == OutOfOrder(s.incidentId, s.alert, s.time, s.source) && outcome == Dedup && signal == s && t.lifecycle == d.lifecycle)
            && (!Stale(d, s) && s.alert.FiringAlert? && was.Firing? && was.completed && was.source == s.source ==>
                  fact == Deduplicated(s.incidentId, s.time, s.source) && outcome == Dedup && signal == s && t.lifecycle == d.lifecycle)
            && (!Stale(d, s) && s.alert.FiringAlert? && was.Firing? && !was.completed ==>
                  && fact == Resumed(same.incidentId, s.time, s.source) && outcome == Resume && signal == same
                  && t.lifecycle == d.lifecycle[s.key := Firing(was.episode, false, s.time, s.timeMs, s.source)])
            && (!Stale(d, s) && s.alert.ResolvedAlert? ==>
                  && fact == (if was.Firing? then Recovered(same.incidentId, s.time, s.source) else Deduplicated(same.incidentId, s.time, s.source))
                  && outcome == (if was.Firing? then Accepted else Dedup) && signal == same
                  && t.lifecycle == d.lifecycle[s.key := Resolved(was.episode, s.time, s.timeMs, s.source)])
  {
    hide ParseMillis, CorrelationKey, EpisodeNumber, Id;
  }

  lemma FirstResolvedExactly(d: State, s: Signal)
    requires Receivable(d, s, true) && s.key !in d.lifecycle && s.alert.ResolvedAlert?
    ensures ProcessTx(d, s, true)
            == Ok((State(d.journal + [Recovered(s.incidentId, s.time, s.source)],
                         d.lifecycle[s.key := Resolved(s.episode, s.time, s.timeMs, s.source)]), s, Accepted))
  {
  }

  /** A completion is refused if and only if it cannot be journalled; it marks the firing episode of its key and nothing else. */
  lemma CompletesExactly(d: State, id: string, writable: bool)
    ensures var r, key := CompleteTx(d, id, writable), CorrelationKey(id);
            && (r.Ok? <==> writable && |d.journal| <= 0x7FFF_FFFF_FFFF_FFFF) && (r.Err? ==> r.error == Journal)
            && (r.Ok? ==>
                  && r.value.journal == d.journal + [Completed(id)] && r.value.lifecycle.Keys == d.lifecycle.Keys
                  && forall k | k in d.lifecycle ::
                       r.value.lifecycle[k] == match d.lifecycle[k]
                                               case Firing(episode, completed, time, timeMs, source) => Firing(episode, completed || k == key, time, timeMs, source)
                                               case Resolved(_, _, _, _) => d.lifecycle[k])
  {
    hide CorrelationKey;
  }

  /** A redelivered alert starts nothing new once the episode it opened is completed. */
  lemma RedeliveryOpensNothing(d: State, s: Signal, id: string)
    requires Receivable(d, s, true) && ProcessTx(d, s, true).value.0.journal[|d.journal|].Opened?
    requires CorrelationKey(id) == s.key
    requires var after := ProcessTx(d, s, true).value.0;
             CompleteTx(after, id, true).Ok? && Receivable(CompleteTx(after, id, true).value, s, true)
    ensures var completed := CompleteTx(ProcessTx(d, s, true).value.0, id, true).value;
            var (again, _, outcome) := ProcessTx(completed, s, true).value;
            && again.journal == completed.journal + [Deduplicated(s.incidentId, s.time, s.source)]
            && again.lifecycle == completed.lifecycle && outcome == Dedup
  {
    hide ParseMillis, CorrelationKey, EpisodeNumber, Id;
    OpensExactly(d, s);
  }

  // ---- Agreement of live and rebuilt state ----

  predicate SameState(live: Lifecycle, rebuilt: Lifecycle) {
    match (live, rebuilt)
    case (Firing(_, _, _, _, _), Firing(_, _, _, _, _)) => live == rebuilt && live.timeMs.Some?
    case (Resolved(e1, _, t1, _), Resolved(e2, _, t2, _)) => e1 == e2 && t1.Some? && t2.Some? && t2.value <= t1.value
    case _ => false
  }

  ghost predicate Agree(live: map<string, Lifecycle>, rebuilt: map<string, Lifecycle>) {
    live.Keys == rebuilt.Keys && forall k | k in live :: SameState(live[k], rebuilt[k])
  }

  function OpenCount(journal: seq<Event>, key: string): (n: nat)
    ensures n <= |journal|
  {
    if journal == [] then 0
    else OpenCount(journal[..|journal| - 1], key)
         + if OpensKey(journal[|journal| - 1], key) then 1 else 0
  }

  predicate OpensKey(e: Event, key: string) {
    e.Opened? && CorrelationKey(e.id) == key
  }

  /** The key's openings are numbered consecutively from `base`. */
  ghost predicate Consecutive(journal: seq<Event>, key: string, base: int) {
    forall i | 0 <= i < |journal| && OpensKey(journal[i], key) ::
      EpisodeNumber(journal[i].id) == base + OpenCount(journal[..i], key)
  }

  /** The first episode a key ever opened or will open with: 1, or 2 when it was first seen resolved. */
  function Base(d: State, key: string): int
    requires key in d.lifecycle
  {
    d.lifecycle[key].episode + 1 - OpenCount(d.journal, key)
  }

  ghost predicate KeyInv(d: State, key: string) {
    && (key !in d.lifecycle ==> OpenCount(d.journal, key) == 0)
    && (key in d.lifecycle ==>
          && PlainKey(key) && d.lifecycle[key].episode >= 1
          && 1 <= Base(d, key) <= 2 && Consecutive(d.journal, key, Base(d, key))
          && (d.lifecycle[key].Firing? ==> OpenCount(d.journal, key) > 0))
  }

  ghost predicate Inv(d: State) {
    && Agree(d.lifecycle, Rebuild(d.journal))
    && (forall key :: KeyInv(d, key))
    && (forall i | 0 <= i < |d.journal| && d.journal[i].Opened? ::
          d.journal[i].id == Id(CorrelationKey(d.journal[i].id), EpisodeNumber(d.journal[i].id)))
  }

  // ---- Preservation ----

  lemma OpenCountAppend(journal: seq<Event>, e: Event, key: string)
    ensures OpenCount(journal + [e], key) == OpenCount(journal, key) + if OpensKey(e, key) then 1 else 0
    ensures Rebuild(journal + [e]) == Replay(Rebuild(journal), e)
  {
    assert (journal + [e])[..|journal|] == journal;
  }

  lemma ConsecutiveAppend(journal: seq<Event>, e: Event, key: string, base: int)
    requires Consecutive(journal, key, base)
    requires OpensKey(e, key) ==> EpisodeNumber(e.id) == base + OpenCount(journal, key)
    ensures Consecutive(journal + [e], key, base)
  {
    var longer := journal + [e];
    forall i | 0 <= i < |longer| && OpensKey(longer[i], key)
      ensures EpisodeNumber(longer[i].id) == base + OpenCount(longer[..i], key)
    {
      assert i < |journal| ==> longer[i] == journal[i] && longer[..i] == journal[..i];
      assert i == |journal| ==> longer[..i] == journal;
    }
  }

  /** A fact that opens nothing leaves every key's numbering alone. */
  lemma QuietFactKeepsKey(d: State, t: State, e: Event, key: string)
    requires KeyInv(d, key) && t.journal == d.journal + [e] && !OpensKey(e, key)
    requires key in t.lifecycle <==> key in d.lifecycle
    requires key in d.lifecycle ==> t.lifecycle[key].episode == d.lifecycle[key].episode
    requires key in d.lifecycle && t.lifecycle[key].Firing? ==> d.lifecycle[key].Firing?
    ensures KeyInv(t, key)
  {
    OpenCountAppend(d.journal, e, key);
    if key in d.lifecycle { ConsecutiveAppend(d.journal, e, key, Base(d, key)); }
  }

  /** The verdict's fact names the signal's key and the episode its next state is in. */
  lemma VerdictReads(current: Option<Lifecycle>, s: Signal, bound: nat)
    requires Normalized(s) && PlainKey(s.key) && s.timeMs.Some? && bound < MAX_U64
    requires current.Some? ==> 1 <= current.value.episode <= bound
    ensures var v := Judge(current, s);
            && (v.event.Opened? || v.event.Recovered? || v.event.Resumed? ==>
                  v.next.Some? && CorrelationKey(v.event.id) == s.key && EpisodeNumber(v.event.id) == v.next.value.episode
                  && v.event.id == Id(s.key, v.next.value.episode))
            && (v.next.Some? ==> v.next.value.episode >= 1)
  {
    hide CorrelationKey, EpisodeNumber, ParseMillis;
    IdReads(s.key, 1);
    if current.Some? {
      IdReads(s.key, current.value.episode);
      IdReads(s.key, current.value.episode + 1);
    }
  }

  lemma EpisodeBound(d: State, key: string)
    requires KeyInv(d, key) && key in d.lifecycle
    ensures 1 <= d.lifecycle[key].episode <= |d.journal| + 1
  {
  }

  /** The journal's own bound keeps every episode number, and the next one, inside 64 bits. */
  lemma EpisodesFit(ops: seq<Op>, key: string)
    requires PlainOps(ops) && key in Run(EMPTY, ops).lifecycle && |Run(EMPTY, ops).journal| <= MAX_SEQUENCE
    ensures Run(EMPTY, ops).lifecycle[key].episode + 1 <= MAX_U64
  {
    hide CorrelationKey, EpisodeNumber, ParseMillis, Apply;
    RunKeepsInv(EMPTY, ops);
    EpisodeBound(Run(EMPTY, ops), key);
  }

  /** The rebuilt state follows the live one through every kind of verdict. */
  lemma ProcessAgrees(live: map<string, Lifecycle>, rebuilt: map<string, Lifecycle>, s: Signal, v: Verdict)
    requires Agree(live, rebuilt) && s.timeMs.Some? && v == Judge(Lookup(live, s.key), s) && s.timeMs == ParseMillis(s.time)
    requires v.event.Opened? || v.event.Recovered? || v.event.Resumed? ==>
               v.next.Some? && CorrelationKey(v.event.id) == s.key && EpisodeNumber(v.event.id) == v.next.value.episode
    ensures Agree(if v.next.Some? then live[s.key := v.next.value] else live, Replay(rebuilt, v.event))
  {
    hide ParseMillis, CorrelationKey, EpisodeNumber, Id;
    if s.key in live { assert SameState(live[s.key], rebuilt[s.key]); }
  }

  /** Opening numbers the key's next episode; anything else keeps its current one. */
  lemma ProcessKeepsOwnKey(d: State, s: Signal)
    requires KeyInv(d, s.key) && Normalized(s) && PlainKey(s.key) && ProcessTx(d, s, true).Ok?
    ensures KeyInv(ProcessTx(d, s, true).value.0, s.key)
  {
    hide KeyInv, ProcessTx;
    if s.key in d.lifecycle { KnownKeyKeeps(d, s); } else { NewKeyKeeps(d, s); }
  }

  lemma KnownKeyKeeps(d: State, s: Signal)
    requires KeyInv(d, s.key) && Normalized(s) && PlainKey(s.key) && ProcessTx(d, s, true).Ok? && s.key in d.lifecycle
    ensures KeyInv(ProcessTx(d, s, true).value.0, s.key)
  {
    hide CorrelationKey, EpisodeNumber, ParseMillis, OpenCount, Consecutive, PlainKey;
    var key, t := s.key, ProcessTx(d, s, true).value.0;
    var v := Judge(Lookup(d.lifecycle, key), s);
    EpisodeBound(d, key);
    VerdictReads(Lookup(d.lifecycle, key), s, |d.journal| + 1);
    OpenCountAppend(d.journal, v.event, key);
    ConsecutiveAppend(d.journal, v.event, key, Base(d, key));
    assert Base(t, key) == Base(d, key);
  }

  lemma NewKeyKeeps(d: State, s: Signal)
    requires KeyInv(d, s.key) && Normalized(s) && PlainKey(s.key) && ProcessTx(d, s, true).Ok? && s.key !in d.lifecycle
    ensures KeyInv(ProcessTx(d, s, true).value.0, s.key)
  {
    hide CorrelationKey, EpisodeNumber, ParseMillis;
    var key, t := s.key, ProcessTx(d, s, true).value.0;
    var v := Judge(Lookup(d.lifecycle, key), s);
    VerdictReads(Lookup(d.lifecycle, key), s, |d.journal| + 1);
    OpenCountAppend(d.journal, v.event, key);
    assert forall i | 0 <= i < |d.journal| :: !OpensKey(d.journal[i], key) by { NoOpenings(d.journal, key); }
    ConsecutiveAppend(d.journal, v.event, key, Base(t, key));
  }

  lemma {:induction false} NoOpenings(journal: seq<Event>, key: string)
    requires OpenCount(journal, key) == 0
    ensures forall i | 0 <= i < |journal| :: !OpensKey(journal[i], key)
  {
    if journal != [] {
      var init := journal[..|journal| - 1];
      NoOpenings(init, key);
      assert forall i | 0 <= i < |init| :: init[i] == journal[i];
    }
  }

  lemma ProcessKeepsInv(d: State, s: Signal)
    requires Inv(d) && Normalized(s) && PlainKey(s.key) && ProcessTx(d, s, true).Ok?
    ensures Inv(ProcessTx(d, s, true).value.0)
  {
    hide CorrelationKey, EpisodeNumber, ParseMillis;
    var t := ProcessTx(d, s, true).value.0;
    var v := Judge(Lookup(d.lifecycle, s.key), s);
    assert KeyInv(d, s.key);
    if s.key in d.lifecycle { EpisodeBound(d, s.key); }
    VerdictReads(Lookup(d.lifecycle, s.key), s, |d.journal| + 1);
    ProcessAgrees(d.lifecycle, Rebuild(d.journal), s, v);
    OpenCountAppend(d.journal, v.event, s.key);
    forall key ensures KeyInv(t, key) {
      assert KeyInv(d, key);
      if key == s.key { ProcessKeepsOwnKey(d, s); } else { QuietFactKeepsKey(d, t, v.event, key); }
    }
  }

  lemma CompleteAgrees(live: map<string, Lifecycle>, rebuilt: map<string, Lifecycle>, key: string)
    requires Agree(live, rebuilt)
    ensures Agree(Complete(live, key), Complete(rebuilt, key))
  {
    if key in live { assert SameState(live[key], rebuilt[key]); }
  }

  lemma CompleteKeepsInv(d: State, id: string)
    requires Inv(d) && CompleteTx(d, id, true).Ok?
    ensures Inv(CompleteTx(d, id, true).value)
  {
    hide ParseMillis, CorrelationKey, EpisodeNumber, Id;
    var t := CompleteTx(d, id, true).value;
    OpenCountAppend(d.journal, Completed(id), CorrelationKey(id));
    CompleteAgrees(d.lifecycle, Rebuild(d.journal), CorrelationKey(id));
    forall key ensures KeyInv(t, key) {
      assert KeyInv(d, key);
      QuietFactKeepsKey(d, t, Completed(id), key);
    }
  }

  lemma OtherKeepsInv(d: State, tag: string)
    requires Inv(d)
    ensures Inv(d.(journal := d.journal + [OtherFact(tag)]))
  {
    var t := d.(journal := d.journal + [OtherFact(tag)]);
    OpenCountAppend(d.journal, OtherFact(tag), "");
    forall key ensures KeyInv(t, key) {
      assert KeyInv(d, key);
      QuietFactKeepsKey(d, t, OtherFact(tag), key);
    }
  }

  lemma RestartKeepsInv(d: State)
    requires Inv(d)
    ensures Inv(State(d.journal, Rebuild(d.journal)))
  {
    var t := State(d.journal, Rebuild(d.journal));
    forall key ensures KeyInv(t, key) {
      assert KeyInv(d, key);
      if key in d.lifecycle { assert SameState(d.lifecycle[key], t.lifecycle[key]); }
    }
  }

  lemma {:induction false} RunKeepsInv(d: State, ops: seq<Op>)
    requires Inv(d) && PlainOps(ops)
    ensures Inv(Run(d, ops))
    decreases |ops|
  {
    if ops != [] {
      match ops[0] {
        case Process(s, writable) => if Apply(d, ops[0]) != d { ProcessKeepsInv(d, s); }
        case MarkCompleted(id, writable) => if Apply(d, ops[0]) != d { CompleteKeepsInv(d, id); }
        case OtherAppend(tag) => OtherKeepsInv(d, tag);
        case Restart => RestartKeepsInv(d);
      }
      RunKeepsInv(Apply(d, ops[0]), ops[1..]);
    }
  }

  // ---- What every run guarantees ----

  lemma ReachableInv(ops: seq<Op>)
    requires PlainOps(ops)
    ensures Inv(Run(EMPTY, ops))
  {
    RunKeepsInv(EMPTY, ops);
  }

  /**
   Rebuild simulation: after any signals, completions, failed writes and restarts, the journal
   rebuilds the live keys, kinds, episodes and completions; firing states exactly, resolved ones
   with a time no later than the live one.
   */
  lemma RebuildSimulates(ops: seq<Op>)
    requires PlainOps(ops)
    ensures Agree(Run(EMPTY, ops).lifecycle, Rebuild(Run(EMPTY, ops).journal))
  {
    ReachableInv(ops);
  }

  /** The simulation needs plain keys: a first firing signal survives a restart exactly when its key is plain. */
  lemma RebuildNeedsPlainKey(s: Signal)
    requires Normalized(s) && s.timeMs.Some? && s.alert.FiringAlert?
    ensures var d := Run(EMPTY, [Process(s, true)]);
            Agree(d.lifecycle, Rebuild(d.journal)) <==> PlainKey(s.key)
  {
    hide CorrelationKey, EpisodeNumber, ParseMillis, Id;
    var d := Run(EMPTY, [Process(s, true)]);
    assert d == Apply(EMPTY, Process(s, true)) by { assert [Process(s, true)][1..] == []; }
    var e := Opened(s.incidentId, s.payload, s.time, s.source);
    assert d.journal == [] + [e];
    OpenCountAppend([], e, s.key);
    FirstIdReads(s.key);
    assert s.key in d.lifecycle && d.lifecycle.Keys == {s.key};
    assert Rebuild(d.journal).Keys == {CorrelationKey(s.incidentId)};
    if CorrelationKey(s.incidentId) != s.key { assert s.key !in Rebuild(d.journal); }
  }

  /** A later duplicate of a resolution: the one verdict whose state change is not in its fact. */
  predicate AdvancesResolution(current: Option<Lifecycle>, s: Signal) {
    && s.timeMs.Some? && s.alert.ResolvedAlert? && current.Some? && current.value.Resolved?
    && !(current.value.timeMs.Some? && s.timeMs.value < current.value.timeMs.value)
    && (s.time != current.value.time || s.source != current.value.source)
  }

  /** Every state's instant is what its own timestamp reads as. */
  ghost predicate TimesParsed(m: map<string, Lifecycle>) {
    forall key | key in m :: m[key].timeMs == ParseMillis(m[key].time)
  }

  lemma {:induction false} RebuildParses(journal: seq<Event>)
    ensures TimesParsed(Rebuild(journal))
  {
    hide ParseMillis, CorrelationKey, EpisodeNumber;
    if journal != [] { RebuildParses(journal[..|journal| - 1]); }
  }

  lemma StepParses(d: State, op: Op)
    requires TimesParsed(d.lifecycle) && (op.Process? ==> Normalized(op.signal))
    ensures TimesParsed(Apply(d, op).lifecycle)
  {
    hide ParseMillis, CorrelationKey, EpisodeNumber, Id, Rebuild;
    if op.Restart? { RebuildParses(d.journal); }
  }

  lemma {:induction false} RunParses(d: State, ops: seq<Op>)
    requires TimesParsed(d.lifecycle) && PlainOps(ops)
    ensures TimesParsed(Run(d, ops).lifecycle)
    decreases |ops|
  {
    hide ParseMillis, CorrelationKey, EpisodeNumber, Id, Apply, TimesParsed;
    if ops != [] {
      StepParses(d, ops[0]);
      RunParses(Apply(d, ops[0]), ops[1..]);
    }
  }

  /** Exact equality of live and rebuilt state survives a signal if and only if it is not such a duplicate. */
  lemma ExactUnlessDuplicateResolution(d: State, s: Signal)
    requires Inv(d) && d.lifecycle == Rebuild(d.journal)
    requires Normalized(s) && PlainKey(s.key) && ProcessTx(d, s, true).Ok?
    ensures var t := ProcessTx(d, s, true).value.0;
            t.lifecycle == Rebuild(t.journal) <==> !AdvancesResolution(Lookup(d.lifecycle, s.key), s)
  {
    hide CorrelationKey, EpisodeNumber, ParseMillis, Id;
    RebuildParses(d.journal);
    var t := ProcessTx(d, s, true).value.0;
    var current := Lookup(d.lifecycle, s.key);
    var v := Judge(current, s);
    assert KeyInv(d, s.key);
    if s.key in d.lifecycle { EpisodeBound(d, s.key); }
    VerdictReads(current, s, |d.journal| + 1);
    OpenCountAppend(d.journal, v.event, s.key);
    assert t.lifecycle == if v.next.Some? then d.lifecycle[s.key := v.next.value] else d.lifecycle;
    assert v.next.Some? ==> t.lifecycle[s.key] == v.next.value;
    if v.event.Deduplicated? || v.event.OutOfOrder? {
      assert Rebuild(t.journal) == d.lifecycle;
      if v.next.Some? && d.lifecycle[s.key] == v.next.value { assert t.lifecycle == d.lifecycle; }
    } else if v.event.Resumed? {
      assert d.lifecycle[s.key].Firing?;
    }
  }

  /** The newest recovery fact of the key. */
  function LastRecovery(journal: seq<Event>, key: string): Option<Event> {
    if journal == [] then None else
    var e := journal[|journal| - 1];
    if e.Recovered? && CorrelationKey(e.id) == key then Some(e) else LastRecovery(journal[..|journal| - 1], key)
  }

  /** If the key shows as resolved, it does so with the time and the source of its newest recovery fact. */
  predicate ShowsRecovery(d: State, key: string) {
    key in d.lifecycle && d.lifecycle[key].Resolved? ==>
      var e := LastRecovery(d.journal, key);
      e.Some? && e.value.Recovered? && d.lifecycle[key].time == e.value.time && d.lifecycle[key].source == e.value.source
  }

  lemma {:induction false} RebuildShowsRecovery(journal: seq<Event>, key: string)
    ensures ShowsRecovery(State(journal, Rebuild(journal)), key)
  {
    hide ParseMillis, CorrelationKey, EpisodeNumber;
    if journal != [] { RebuildShowsRecovery(journal[..|journal| - 1], key); }
  }

  /** After any run, a key is rebuilt exactly as it is live if and only if it shows its newest recovery. */
  lemma KeyRebuiltExactly(ops: seq<Op>, key: string)
    requires PlainOps(ops)
    ensures var d := Run(EMPTY, ops);
            Lookup(d.lifecycle, key) == Lookup(Rebuild(d.journal), key) <==> ShowsRecovery(d, key)
  {
    hide CorrelationKey, EpisodeNumber, ParseMillis, Rebuild, Apply, LastRecovery, KeyInv, Run;
    var d := Run(EMPTY, ops);
    ReachableInv(ops);
    RunParses(EMPTY, ops);
    RebuildParses(d.journal);
    RebuildShowsRecovery(d.journal, key);
    if key in d.lifecycle { assert SameState(d.lifecycle[key], Rebuild(d.journal)[key]); }
  }

  /** After any run, the journal rebuilds the live state exactly if and only if every key shows its newest recovery. */
  lemma JournalRebuildsExactly(ops: seq<Op>)
    requires PlainOps(ops)
    ensures var d := Run(EMPTY, ops);
            d.lifecycle == Rebuild(d.journal) <==> forall key | key in d.lifecycle :: ShowsRecovery(d, key)
  {
    hide PlainOps, Run, Rebuild, ShowsRecovery, SameState;
    var d := Run(EMPTY, ops);
    RebuildSimulates(ops);
    forall key | key in d.lifecycle
      ensures d.lifecycle[key] == Rebuild(d.journal)[key] <==> ShowsRecovery(d, key)
    {
      KeyRebuiltExactly(ops, key);
    }
  }

  /** Whatever a key's duplicates did, its next opening is rebuilt exactly. */
  lemma OpeningRestores(ops: seq<Op>, s: Signal)
    requires PlainOps(ops) && Normalized(s) && PlainKey(s.key) && ProcessTx(Run(EMPTY, ops), s, true).Ok?
    requires Judge(Lookup(Run(EMPTY, ops).lifecycle, s.key), s).event.Opened?
    ensures var t := ProcessTx(Run(EMPTY, ops), s, true).value.0;
            s.key in t.lifecycle && Lookup(Rebuild(t.journal), s.key) == Some(t.lifecycle[s.key])
  {
    hide CorrelationKey, EpisodeNumber, ParseMillis, Rebuild, Id, KeyInv, PlainKey, Run;
    ReachableInv(ops);
    ProcessKeepsInv(Run(EMPTY, ops), s);
    var t := ProcessTx(Run(EMPTY, ops), s, true).value.0;
    assert SameState(t.lifecycle[s.key], Rebuild(t.journal)[s.key]);
  }

  const EPOCH: string := "1970-01-01T00:00:00.000Z"
  const SECOND_LATER: string := "1970-01-01T00:00:01.000Z"

  function Received(key: string, alert: Alert, time: string, ms: int): Signal {
    Signal(key, Id(key, 1), 1, alert, "", time, "alertmanager", Some(ms))
  }

  lemma FirstResolution(s: Signal)
    requires Normalized(s) && s.timeMs.Some? && s.alert.ResolvedAlert?
    ensures var d := Apply(EMPTY, Process(s, true));
            && ProcessTx(EMPTY, s, true).Ok? && d == ProcessTx(EMPTY, s, true).value.0
            && |d.journal| == 1 && Lookup(d.lifecycle, s.key) == Some(Resolved(1, s.time, s.timeMs, s.source))
  {
    hide ParseMillis, Id;
  }

  /** A later resolution, with another time, after a first one. */
  lemma SecondResolutionDiverges(first: Signal, second: Signal)
    requires Normalized(first) && Normalized(second) && PlainKey(first.key) && first.key == second.key
    requires first.alert.ResolvedAlert? && second.alert.ResolvedAlert?
    requires first.timeMs.Some? && second.timeMs.Some? && first.timeMs.value < second.timeMs.value
    ensures var d := Run(EMPTY, [Process(first, true), Process(second, true)]);
            d.lifecycle != Rebuild(d.journal)
  {
    hide CorrelationKey, EpisodeNumber, ParseMillis, Rebuild, Id, Inv, Run, Judge, PlainKey;
    var ops := [Process(first, true), Process(second, true)];
    var d := Apply(EMPTY, ops[0]);
    TwoSteps(EMPTY, ops);
    FirstResolution(first);
    RebuildsNothing();
    NothingYet();
    ExactUnlessDuplicateResolution(EMPTY, first);
    ProcessKeepsInv(EMPTY, first);
    ExactUnlessDuplicateResolution(d, second);
  }

  lemma NothingYet()
    ensures Inv(EMPTY)
  {
    ReachableInv([]);
  }

  /** Two resolutions a second apart: the live state shows the second, a restart would show the first. */
  lemma LaterResolutionDiverges()
    ensures var ops := [Process(Received("api", ResolvedAlert, EPOCH, 0), true),
                        Process(Received("api", ResolvedAlert, SECOND_LATER, 1_000), true)];
            var d := Run(EMPTY, ops);
            PlainOps(ops) && d.lifecycle != Rebuild(d.journal)
  {
    hide ParseMillis, Rebuild, Run;
    EpochReads();
    SecondLaterReads();
    SecondResolutionDiverges(Received("api", ResolvedAlert, EPOCH, 0), Received("api", ResolvedAlert, SECOND_LATER, 1_000));
  }

  lemma RebuildsNothing()
    ensures Rebuild([]) == map[]
  {
  }

  lemma TwoSteps(d: State, ops: seq<Op>)
    requires |ops| == 2
    ensures Run(d, ops) == Apply(Apply(d, ops[0]), ops[1])
  {
    hide Apply;
    var rest := ops[1..];
    assert rest[0] == ops[1] && rest[1..] == [];
    assert Run(Apply(d, ops[0]), rest) == Run(Apply(Apply(d, ops[0]), rest[0]), rest[1..]);
  }

  /** A fingerprint `normalize` accepts and the journal cannot give back. */
  lemma EpisodeLikeKeyDiverges()
    ensures !PlainKey("episode-2")
    ensures var s := Received("episode-2", FiringAlert, EPOCH, 0);
            var d := Run(EMPTY, [Process(s, true)]);
            Normalized(s) && !Agree(d.lifecycle, Rebuild(d.journal))
  {
    hide CorrelationKey, EpisodeNumber, ParseMillis, Rebuild, Id, Run;
    EpochReads();
    assert Text.At("-" + "episode-2", 0, SEPARATOR);
    RebuildNeedsPlainKey(Received("episode-2", FiringAlert, EPOCH, 0));
  }

  /** Across restarts, each key's openings are numbered consecutively from 1, or from 2 if first seen resolved. */
  lemma EpisodesRiseByOne(ops: seq<Op>, key: string)
    requires PlainOps(ops)
    ensures exists base | 1 <= base <= 2 :: Consecutive(Run(EMPTY, ops).journal, key, base)
  {
    ReachableInv(ops);
    var d := Run(EMPTY, ops);
    assert KeyInv(d, key);
    if key in d.lifecycle {
      assert Consecutive(d.journal, key, Base(d, key));
    } else {
      NoOpenings(d.journal, key);
      assert Consecutive(d.journal, key, 1);
    }
  }

  lemma {:induction false} OpenCountGrows(journal: seq<Event>, i: nat, j: nat, key: string)
    requires i <= j <= |journal|
    ensures OpenCount(journal[..i], key) <= OpenCount(journal[..j], key)
    ensures i < j && OpensKey(journal[i], key) ==> OpenCount(journal[..i], key) < OpenCount(journal[..j], key)
    decreases j
  {
    if i < j {
      assert journal[..j] == journal[..j - 1] + [journal[j - 1]];
      OpenCountAppend(journal[..j - 1], journal[j - 1], key);
      OpenCountGrows(journal, i, j - 1, key);
    }
  }

  /** No two openings, of whatever keys, ever share an incident identifier. */
  lemma OpenedIdsDistinct(ops: seq<Op>, i: nat, j: nat)
    requires PlainOps(ops)
    requires var journal := Run(EMPTY, ops).journal; i < j < |journal| && journal[i].Opened? && journal[j].Opened?
    ensures Run(EMPTY, ops).journal[i].id != Run(EMPTY, ops).journal[j].id
  {
    hide CorrelationKey, EpisodeNumber, ParseMillis, Apply;
    var journal := Run(EMPTY, ops).journal;
    var key := CorrelationKey(journal[i].id);
    EpisodesRiseByOne(ops, key);
    var base :| 1 <= base <= 2 && Consecutive(journal, key, base);
    OpenCountGrows(journal, i, j, key);
    assert OpensKey(journal[i], key);
    assert OpensKey(journal[j], key) ==> EpisodeNumber(journal[i].id) < EpisodeNumber(journal[j].id);
    assert CorrelationKey(journal[j].id) == key ==> OpensKey(journal[j], key);
  }

  /** No accepted signal moves a key's live time backwards. */
  lemma LiveTimeMonotone(d: State, s: Signal)
    requires ProcessTx(d, s, true).Ok? && s.key in d.lifecycle && d.lifecycle[s.key].timeMs.Some?
    ensures var t := ProcessTx(d, s, true).value.0;
            s.key in t.lifecycle && t.lifecycle[s.key].timeMs.Some?
            && d.lifecycle[s.key].timeMs.value <= t.lifecycle[s.key].timeMs.value
  {
  }

  // ---- Work a restart resumes ----

  predicate Unfinished(d: State, key: string) {
    key in d.lifecycle && d.lifecycle[key].Firing? && !d.lifecycle[key].completed
  }

  /** The newest opening of the key. */
  function LastOpening(journal: seq<Event>, key: string): (e: Option<Event>)
    ensures e.Some? ==> OpensKey(e.value, key)
  {
    if journal == [] then None
    else if OpensKey(journal[|journal| - 1], key) then Some(journal[|journal| - 1])
    else LastOpening(journal[..|journal| - 1], key)
  }

  function PendingSignal(d: State, key: string): Option<Signal>
    requires Unfinished(d, key)
  {
    match LastOpening(d.journal, key)
    case None => None
    case Some(e) =>
      var f := d.lifecycle[key];
      Some(Signal(key, if f.episode == 1 then e.id else PREFIX + key + SEPARATOR + Decimal.Print(f.episode),
                  f.episode, FiringAlert, e.payload, f.time, f.source, f.timeMs))
  }

  lemma {:induction false} LastOpeningNumber(journal: seq<Event>, key: string, base: int)
    requires OpenCount(journal, key) > 0 && Consecutive(journal, key, base)
    ensures LastOpening(journal, key).Some? && LastOpening(journal, key).value in journal
    ensures EpisodeNumber(LastOpening(journal, key).value.id) == base + OpenCount(journal, key) - 1
  {
    var n := |journal| - 1;
    if OpensKey(journal[n], key) {
      assert EpisodeNumber(journal[n].id) == base + OpenCount(journal[..n], key);
    } else {
      assert Consecutive(journal[..n], key, base) by {
        forall i | 0 <= i < n && OpensKey(journal[..n][i], key)
          ensures EpisodeNumber(journal[..n][i].id) == base + OpenCount(journal[..n][..i], key)
        {
          assert journal[..n][i] == journal[i] && journal[..n][..i] == journal[..i];
        }
      }
      LastOpeningNumber(journal[..n], key, base);
    }
  }

  /**
   Every unfinished episode is resumable, under the very identifier and payload it was opened with,
   and a restart resumes exactly the same signals.
   */
  lemma UnfinishedWorkSurvivesRestart(ops: seq<Op>, key: string)
    requires PlainOps(ops)
    ensures var d := Run(EMPTY, ops);
            var restarted := Apply(d, Restart);
            && (Unfinished(d, key) <==> Unfinished(restarted, key))
            && (Unfinished(d, key) ==>
                  && PendingSignal(d, key).Some? && PendingSignal(restarted, key) == PendingSignal(d, key)
                  && var p := PendingSignal(d, key).value;
                     && p == Signal(key, Id(key, d.lifecycle[key].episode), d.lifecycle[key].episode, FiringAlert, p.payload,
                                    d.lifecycle[key].time, d.lifecycle[key].source, d.lifecycle[key].timeMs)
                     && exists e | e in d.journal :: e.Opened? && e.id == p.incidentId && e.payload == p.payload)
  {
    hide CorrelationKey, EpisodeNumber, ParseMillis, Rebuild;
    ReachableInv(ops);
    var d := Run(EMPTY, ops);
    var rebuilt := Rebuild(d.journal);
    assert KeyInv(d, key);
    assert Agree(d.lifecycle, rebuilt);
    if key in d.lifecycle { assert SameState(d.lifecycle[key], rebuilt[key]); }
    if Unfinished(d, key) { OpeningFound(d, key); }
  }

  lemma OpeningFound(d: State, key: string)
    requires Inv(d) && Unfinished(d, key)
    ensures PendingSignal(d, key).Some?
    ensures var p := PendingSignal(d, key).value;
            p.incidentId == Id(key, d.lifecycle[key].episode)
            && exists e | e in d.journal :: e.Opened? && e.id == p.incidentId && e.payload == p.payload
  {
    hide CorrelationKey, EpisodeNumber, ParseMillis, Rebuild;
    assert KeyInv(d, key);
    LastOpeningNumber(d.journal, key, Base(d, key));
    var e := LastOpening(d.journal, key).value;
    var i :| 0 <= i < |d.journal| && d.journal[i] == e;
    assert e.id == Id(CorrelationKey(e.id), EpisodeNumber(e.id));
  }

  /** The unfinished episodes, one of every unfinished key. */
  function OpenEpisodes(d: State): set<(string, nat)> {
    set key | key in d.lifecycle && Unfinished(d, key) :: (key, d.lifecycle[key].episode)
  }

  /**
   Completion is by key: the key's current episode stops being resumable, whatever episode the
   identifier names, and no other key's does. So completing an identifier ends the one episode it names,
   and nothing else, if and only if its key is not in the middle of another episode.
   */
  lemma CompletionEndsItsEpisodeExactly(d: State, id: string)
    requires CompleteTx(d, id, true).Ok?
    ensures forall key :: Unfinished(CompleteTx(d, id, true).value, key) <==> Unfinished(d, key) && key != CorrelationKey(id)
    ensures var t := CompleteTx(d, id, true).value;
            var (key, named) := (CorrelationKey(id), EpisodeNumber(id));
            OpenEpisodes(t) == OpenEpisodes(d) - {(key, named)}
            <==> (Unfinished(d, key) ==> d.lifecycle[key].episode == named)
  {
    hide CorrelationKey, EpisodeNumber;
    var t := CompleteTx(d, id, true).value;
    var (key, named) := (CorrelationKey(id), EpisodeNumber(id));
    assert forall other :: Unfinished(t, other) <==> Unfinished(d, other) && other != key;
    assert forall other | Unfinished(t, other) :: t.lifecycle[other].episode == d.lifecycle[other].episode;
    assert forall p :: p in OpenEpisodes(t) <==> p in OpenEpisodes(d) && p.0 != key by {
      forall p | p in OpenEpisodes(d) && p.0 != key ensures p in OpenEpisodes(t) {
        assert Unfinished(t, p.0);
      }
      forall p | p in OpenEpisodes(t) ensures p in OpenEpisodes(d) && p.0 != key {
        assert Unfinished(d, p.0);
      }
    }
    if Unfinished(d, key) {
      assert (key, d.lifecycle[key].episode) in OpenEpisodes(d);
    }
  }

  // ---- Batches ----

  /** A batch in input order: the firing signals that started new work; an error ends it and keeps what was done. */
  function BatchTx(d: State, batch: seq<Signal>, writable: seq<bool>): (Result<seq<Signal>, DispatchError>, State)
    requires |batch| == |writable|
    decreases |batch|
  {
    if batch == [] then (Ok([]), d) else
    match ProcessTx(d, batch[0], writable[0])
    case Err(e) => (Err(e), d)
    case Ok((next, signal, outcome)) =>
      var (r, t) := BatchTx(next, batch[1..], writable[1..]);
      (Started(if outcome == Accepted && signal.alert.FiringAlert? then [signal] else [], r), t)
  }

  function Started(first: seq<Signal>, r: Result<seq<Signal>, DispatchError>): Result<seq<Signal>, DispatchError> {
    match r case Ok(rest) => Ok(first + rest) case Err(e) => Err(e)
  }

  lemma StartedTwice(a: seq<Signal>, b: seq<Signal>, r: Result<seq<Signal>, DispatchError>)
    ensures Started(a, Started(b, r)) == Started(a + b, r) && Started([], r) == r
  {
    if r.Ok? {
      assert a + (b + r.value) == a + b + r.value && [] + r.value == r.value;
    }
  }

  lemma StartedError(a: seq<Signal>)
    ensures forall e :: Started(a, Err(e)) == Err(e)
  {
  }

  lemma StartedAll(a: seq<Signal>)
    ensures Started(a, Ok([])) == Ok(a)
  {
    assert a + [] == a;
  }

  function Openings(events: seq<Event>): seq<Event> {
    if events == [] then [] else (if events[0].Opened? then [events[0]] else []) + Openings(events[1..])
  }

  function OpeningsOf(signals: seq<Signal>): seq<Event> {
    seq(|signals|, i requires 0 <= i < |signals| =>
      Opened(signals[i].incidentId, signals[i].payload, signals[i].time, signals[i].source))
  }

  /** One signal starts work exactly when its fact is an opening, which then names it. */
  lemma VerdictStarts(current: Option<Lifecycle>, s: Signal)
    requires s.timeMs.Some?
    ensures var v := Judge(current, s);
            && (v.event.Opened? <==> v.outcome == Accepted && v.signal.alert.FiringAlert?)
            && (v.event.Opened? ==> [v.event] == OpeningsOf([v.signal]))
  {
    hide CorrelationKey, EpisodeNumber, ParseMillis, Id;
  }

  /**
   A batch only appends, and the work it reports is exactly the incidents it opened, in order, under
   the identifiers and payloads their openings recorded.
   */
  lemma {:induction false} BatchReportsOpenings(d: State, batch: seq<Signal>, writable: seq<bool>)
    requires |batch| == |writable|
    ensures var (r, t) := BatchTx(d, batch, writable);
            && d.journal <= t.journal
            && (r.Ok? ==> |t.journal| == |d.journal| + |batch| && Openings(t.journal[|d.journal|..]) == OpeningsOf(r.value))
    decreases |batch|
  {
    hide Judge;
    if batch == [] {
      assert d.journal[|d.journal|..] == [];
    } else {
      match ProcessTx(d, batch[0], writable[0])
      case Err(_) =>
      case Ok((next, signal, outcome)) =>
        VerdictStarts(Lookup(d.lifecycle, batch[0].key), batch[0]);
        BatchReportsOpenings(next, batch[1..], writable[1..]);
        var (rest, t) := BatchTx(next, batch[1..], writable[1..]);
        var e := Judge(Lookup(d.lifecycle, batch[0].key), batch[0]).event;
        assert next.journal == d.journal + [e];
        if rest.Ok? {
          var added := t.journal[|d.journal|..];
          assert added[0] == e && added[1..] == t.journal[|next.journal|..];
          assert OpeningsOf([signal] + rest.value) == OpeningsOf([signal]) + OpeningsOf(rest.value);
          assert [] + rest.value == rest.value;
        }
    }
  }

  /** The states a key passes through when it fires, resolves and fires again. */
  lemma FiresTwice(first: Signal, between: Signal, second: Signal)
    requires first.key == between.key == second.key
    requires Normalized(first) && Normalized(between) && Normalized(second)
    requires first.alert.FiringAlert? && between.alert.ResolvedAlert? && second.alert.FiringAlert?
    requires first.timeMs.Some? && between.timeMs.Some? && second.timeMs.Some?
    requires first.timeMs.value <= between.timeMs.value <= second.timeMs.value
    ensures ProcessTx(EMPTY, first, true).Ok? && ProcessTx(EMPTY, first, true).value.1 == first
    ensures ProcessTx(EMPTY, first, true).value.2 == Accepted
    ensures var d1 := ProcessTx(EMPTY, first, true).value.0;
            ProcessTx(d1, between, true).Ok? && ProcessTx(d1, between, true).value.1.alert.ResolvedAlert?
            && var d2 := ProcessTx(d1, between, true).value.0;
               var renewed := second.(episode := 2, incidentId := Id(first.key, 2));
               ProcessTx(d2, second, true).Ok? && ProcessTx(d2, second, true).value.1 == renewed
               && ProcessTx(d2, second, true).value.2 == Accepted
               && var d3 := ProcessTx(d2, second, true).value.0;
                  |d3.journal| == 3 && d3.lifecycle == map[first.key := Firing(2, false, second.time, second.timeMs, second.source)]
  {
    hide CorrelationKey, EpisodeNumber, ParseMillis, PlainKey;
    var d1 := ProcessTx(EMPTY, first, true).value.0;
    assert d1.lifecycle == map[first.key := Firing(1, false, first.time, first.timeMs, first.source)];
    var d2 := ProcessTx(d1, between, true).value.0;
    assert d2.lifecycle == map[first.key := Resolved(1, between.time, between.timeMs, between.source)];
  }

  /**
   One batch shows it: an alert fires, resolves and fires again, two investigations start, and the
   report of the first takes the second off the work a restart would resume.
   */
  lemma FirstReportEndsSecondEpisode(first: Signal, between: Signal, second: Signal)
    requires PlainKey(first.key) && first.key == between.key == second.key
    requires Normalized(first) && Normalized(between) && Normalized(second)
    requires first.alert.FiringAlert? && between.alert.ResolvedAlert? && second.alert.FiringAlert?
    requires first.timeMs.Some? && between.timeMs.Some? && second.timeMs.Some?
    requires first.timeMs.value <= between.timeMs.value <= second.timeMs.value
    ensures var (r, d) := BatchTx(EMPTY, [first, between, second], [true, true, true]);
            && r == Ok([first, second.(episode := 2, incidentId := Id(first.key, 2))])
            && OpenEpisodes(d) == {(first.key, 2)}
            && CompleteTx(d, first.incidentId, true).Ok?
            && OpenEpisodes(CompleteTx(d, first.incidentId, true).value) == {}
  {
    hide ProcessTx, CorrelationKey, EpisodeNumber, ParseMillis, PlainKey, Id;
    FiresTwice(first, between, second);
    var batch, all := [first, between, second], [true, true, true];
    var d1 := ProcessTx(EMPTY, first, true).value.0;
    var d2 := ProcessTx(d1, between, true).value.0;
    var d3 := ProcessTx(d2, second, true).value.0;
    var renewed := second.(episode := 2, incidentId := Id(first.key, 2));
    assert batch[1..] == [between, second] && all[1..] == [true, true];
    assert batch[1..][1..] == [second] && all[1..][1..] == [true];
    assert BatchTx(d3, [second][1..], [true][1..]) == (Ok([]), d3);
    assert BatchTx(d2, [second], [true]) == (Ok([renewed]), d3) by { assert [renewed] + [] == [renewed]; }
    assert BatchTx(d1, batch[1..], all[1..]) == (Ok([] + [renewed]), d3) by {
      assert BatchTx(d2, batch[1..][1..], all[1..][1..]) == (Ok([renewed]), d3);
    }
    assert [first] + ([] + [renewed]) == [first, renewed];
    IdReads(first.key, 1);
    assert OpenEpisodes(d3) == {(first.key, 2)} by {
      assert Unfinished(d3, first.key);
    }
    assert !Unfinished(CompleteTx(d3, first.incidentId, true).value, first.key);
  }

  /** Such a batch, written out. */
  lemma LiteralBatchLosesWork()
    ensures var batch := [Received("api", FiringAlert, EPOCH, 0), Received("api", ResolvedAlert, SECOND_LATER, 1_000),
                          Received("api", FiringAlert, SECOND_LATER, 1_000)];
            var (r, d) := BatchTx(EMPTY, batch, [true, true, true]);
            && r.Ok? && |r.value| == 2 && r.value[0].incidentId == "incident-api"
            && OpenEpisodes(d) == {("api", 2)} && CompleteTx(d, "incident-api", true).Ok?
            && OpenEpisodes(CompleteTx(d, "incident-api", true).value) == {}
  {
    hide ParseMillis, ProcessTx, CompleteTx, OpenEpisodes, BatchTx;
    EpochReads();
    SecondLaterReads();
    assert Id("api", 1) == "incident-api";
    FirstReportEndsSecondEpisode(Received("api", FiringAlert, EPOCH, 0), Received("api", ResolvedAlert, SECOND_LATER, 1_000),
                                 Received("api", FiringAlert, SECOND_LATER, 1_000));
  }

  // ---- Appends that take effect and are reported failed ----

  /**
   The dispatcher beside its database: `told` is the state in memory, `lost` the state it would be in
   had it been told of an append that took effect although it was reported failed.
   */
  datatype Deployed = Deployed(told: State, lost: Option<State>)

  datatype DeployedOp = Reported(op: Op) | Unreported(op: Op)

  /**
   An unreported append changes the table alone. Until a restart the next sequence in memory is taken,
   so every other append is refused; a restart reads the table.
   */
  function ApplyDeployed(d: Deployed, op: DeployedOp): Deployed {
    if op.op.Restart? then
      var journal := Rows(d);
      Deployed(State(journal, Rebuild(journal)), None)
    else if d.lost.Some? then d
    else if op.Unreported? then
      if Apply(d.told, op.op) == d.told then d else Deployed(d.told, Some(Apply(d.told, op.op)))
    else Deployed(Apply(d.told, op.op), None)
  }

  /** The journal table. */
  function Rows(d: Deployed): seq<Event> {
    if d.lost.Some? then d.lost.value.journal else d.told.journal
  }

  function RunDeployed(d: Deployed, ops: seq<DeployedOp>): Deployed
    decreases |ops|
  {
    if ops == [] then d else RunDeployed(ApplyDeployed(d, ops[0]), ops[1..])
  }

  /**
   A history with lost reports is made of its steps: a restart reads the whole table, behind a lost fact
   nothing is journalled, and a lost fact is in the table alone.
   */
  lemma {:induction false} DeployedAppends(d: Deployed, ops: seq<DeployedOp>, op: DeployedOp)
    ensures RunDeployed(d, []) == d
    ensures var (t, u) := (RunDeployed(d, ops), RunDeployed(d, ops + [op]));
            if op.op.Restart? then u.lost.None? && u.told == State(Rows(t), Rebuild(Rows(t)))
            else if t.lost.Some? then u == t
            else if op.Reported? then u == Deployed(Apply(t.told, op.op), None)
            else u.told == t.told && (if Apply(t.told, op.op) == t.told then u.lost.None? else u.lost == Some(Apply(t.told, op.op)))
    decreases |ops|
  {
    hide Apply, Rebuild, Rows;
    if ops == [] {
      assert [op][1..] == [];
    } else {
      assert (ops + [op])[1..] == ops[1..] + [op];
      DeployedAppends(ApplyDeployed(d, ops[0]), ops[1..], op);
    }
  }


  ghost predicate PlainDeployedOps(ops: seq<DeployedOp>) {
    forall i | 0 <= i < |ops| && ops[i].op.Process? :: Normalized(ops[i].op.signal) && PlainKey(ops[i].op.signal.key)
  }

  /** The table holds what memory does, or one fact more. */
  ghost predicate OneBehind(d: Deployed) {
    && Inv(d.told)
    && (d.lost.Some? ==> Inv(d.lost.value) && exists e :: d.lost.value.journal == d.told.journal + [e])
  }

  lemma ApplyKeepsInv(d: State, op: Op)
    requires Inv(d) && (op.Process? ==> Normalized(op.signal) && PlainKey(op.signal.key))
    ensures Inv(Apply(d, op))
  {
    hide Inv, Rebuild, Apply, PlainKey, Normalized;
    var ops := [op];
    assert ops[1..] == [];
    assert Run(d, ops) == Apply(d, op);
    RunKeepsInv(d, ops);
  }

  lemma ApplyAppendsOne(d: State, op: Op)
    requires !op.Restart? && Apply(d, op) != d
    ensures exists e :: Apply(d, op).journal == d.journal + [e]
  {
    hide Judge, Complete, CorrelationKey;
    var e := match op
      case Process(s, _) => Judge(Lookup(d.lifecycle, s.key), s).event
      case MarkCompleted(id, _) => Completed(id)
      case OtherAppend(tag) => OtherFact(tag);
    assert Apply(d, op).journal == d.journal + [e];
  }

  lemma DeployedStep(d: Deployed, op: DeployedOp)
    requires OneBehind(d) && (op.op.Process? ==> Normalized(op.op.signal) && PlainKey(op.op.signal.key))
    ensures OneBehind(ApplyDeployed(d, op))
  {
    hide Inv, Rebuild, Apply, PlainKey, Normalized;
    ApplyKeepsInv(d.told, op.op);
    if op.op.Restart? {
      RestartReads(d.told);
      if d.lost.Some? { RestartReads(d.lost.value); }
    } else if d.lost.None? && op.Unreported? && Apply(d.told, op.op) != d.told {
      ApplyAppendsOne(d.told, op.op);
    }
  }

  lemma RestartReads(d: State)
    requires Inv(d)
    ensures Inv(State(d.journal, Rebuild(d.journal)))
  {
    hide Inv;
    RestartKeepsInv(d);
  }

  lemma {:induction false} DeployedKept(d: Deployed, ops: seq<DeployedOp>)
    requires OneBehind(d) && PlainDeployedOps(ops)
    ensures OneBehind(RunDeployed(d, ops))
    decreases |ops|
  {
    hide OneBehind, ApplyDeployed;
    if ops != [] {
      DeployedStep(d, ops[0]);
      DeployedKept(ApplyDeployed(d, ops[0]), ops[1..]);
    }
  }

  /**
   What the rebuild simulates then: after any run with unreported appends the table rebuilds the state
   memory would be in had it been told; memory itself agrees with its own journal, which the table
   extends by at most one fact; and until a restart memory and table stay as they are.
   */
  lemma RebuildSimulatesUnreported(ops: seq<DeployedOp>, op: DeployedOp)
    requires PlainDeployedOps(ops)
    ensures var d := RunDeployed(Deployed(EMPTY, None), ops);
            && Agree(if d.lost.Some? then d.lost.value.lifecycle else d.told.lifecycle, Rebuild(Rows(d)))
            && Agree(d.told.lifecycle, Rebuild(d.told.journal))
            && d.told.journal <= Rows(d) && |Rows(d)| <= |d.told.journal| + 1
            && (d.lost.Some? && !op.op.Restart? ==> ApplyDeployed(d, op) == d)
  {
    hide Agree, Rebuild, Apply, KeyInv;
    NothingYet();
    DeployedKept(Deployed(EMPTY, None), ops);
  }

  // ---- The dispatcher object ----

  class IncidentDispatcher {
    var journal: seq<Event>
    var lifecycle: map<string, Lifecycle>

    ghost function Contents(): State
      reads this
    {
      State(journal, lifecycle)
    }

    /** Rebuilds correlation state from the durable journal, entry by entry. */
    constructor (journal: seq<Event>)
      ensures Contents() == State(journal, Rebuild(journal))
    {
      this.journal, this.lifecycle := journal, map[];
      new;
      for i := 0 to |journal|
        modifies this`lifecycle
        invariant this.journal == journal && lifecycle == Rebuild(journal[..i])
      {
        assert journal[..i + 1][..i] == journal[..i];
        match journal[i] {
          case Opened(id, _, time, source) =>
            lifecycle := lifecycle[CorrelationKey(id) := Firing(EpisodeNumber(id), false, time, ParseMillis(time), source)];
          case Recovered(id, time, source) =>
            lifecycle := lifecycle[CorrelationKey(id) := Resolved(EpisodeNumber(id), time, ParseMillis(time), source)];
          case Completed(id) =>
            var key := CorrelationKey(id);
            if key in lifecycle && lifecycle[key].Firing? {
              lifecycle := lifecycle[key := lifecycle[key].(completed := true)];
            }
          case Resumed(id, time, source) =>
            var key := CorrelationKey(id);
            if key in lifecycle && lifecycle[key].Firing? {
              lifecycle := lifecycle[key := Firing(lifecycle[key].episode, lifecycle[key].completed, time, ParseMillis(time), source)];
            }
          case _ =>
        }
      }
      assert journal[..|journal|] == journal;
    }

    method Append(e: Event, writable: bool) returns (ok: bool)
      modifies this`journal
      ensures ok == (writable && old(|journal|) <= MAX_SEQUENCE)
      ensures journal == if ok then old(journal) + [e] else old(journal)
    {
      ok := writable && |journal| <= MAX_SEQUENCE;
      if ok { journal := journal + [e]; }
    }

    /** One signal, in the order the source decides: stale time first, then status against state. */
    method ProcessOne(signal: Signal, writable: bool) returns (r: Result<(Signal, Outcome), DispatchError>)
      modifies this
      ensures match ProcessTx(old(Contents()), signal, writable)
              case Ok(out) => r == Ok((out.1, out.2)) && Contents() == out.0
              case Err(e) => r == Err(e) && Contents() == old(Contents())
    {
      hide ParseMillis, CorrelationKey, EpisodeNumber;
      var key, incident := signal.key, signal;
      if incident.timeMs.None? { return Err(InvalidSignal); }
      var current := if key in lifecycle then Some(lifecycle[key]) else None;
      if current.Some? && current.value.timeMs.Some? && incident.timeMs.value < current.value.timeMs.value {
        var stale := Append(OutOfOrder(incident.incidentId, incident.alert, incident.time, incident.source), writable);
        return if stale then Ok((incident, Dedup)) else Err(Journal);
      }
      var firing := incident.alert.FiringAlert?;
      var event, next, outcome;
      if current.None? {
        event := if firing then Opened(incident.incidentId, incident.payload, incident.time, incident.source)
                 else Recovered(incident.incidentId, incident.time, incident.source);
        next := if firing then Some(Firing(incident.episode, false, incident.time, incident.timeMs, incident.source))
                else Some(Resolved(incident.episode, incident.time, incident.timeMs, incident.source));
        outcome := Accepted;
      } else if firing && current.value.Firing? && current.value.completed && incident.source == current.value.source {
        event, next, outcome := Deduplicated(incident.incidentId, incident.time, incident.source), None, Dedup;
      } else {
        var episode := current.value.episode;
        if firing && (current.value.Resolved? || current.value.completed) {
          episode := episode + 1;
          incident := incident.(episode := episode, incidentId := PREFIX + key + SEPARATOR + Decimal.Print(episode));
          event := Opened(incident.incidentId, incident.payload, incident.time, incident.source);
          outcome := Accepted;
        } else {
          incident := incident.(episode := episode, incidentId := Id(key, episode));
          if firing {
            event, outcome := Resumed(incident.incidentId, incident.time, incident.source), Resume;
          } else if current.value.Firing? {
            event, outcome := Recovered(incident.incidentId, incident.time, incident.source), Accepted;
          } else {
            event, outcome := Deduplicated(incident.incidentId, incident.time, incident.source), Dedup;
          }
        }
        next := if firing then Some(Firing(episode, false, incident.time, incident.timeMs, incident.source))
                else Some(Resolved(episode, incident.time, incident.timeMs, incident.source));
      }
      var written := Append(event, writable);
      if !written { return Err(Journal); }
      if next.Some? { lifecycle := lifecycle[key := next.value]; }
      return Ok((incident, outcome));
    }

    /** `process_new`: the firing signals of a batch that started new work. */
    method ProcessNew(batch: seq<Signal>, writable: seq<bool>) returns (r: Result<seq<Signal>, DispatchError>)
      requires |batch| == |writable|
      modifies this
      ensures (r, Contents()) == BatchTx(old(Contents()), batch, writable)
    {
      hide ProcessTx, Started;
      var accepted: seq<Signal> := [];
      StartedTwice([], [], BatchTx(Contents(), batch, writable).0);
      for i := 0 to |batch|
        invariant var (rest, t) := BatchTx(Contents(), batch[i..], writable[i..]);
                  BatchTx(old(Contents()), batch, writable) == (Started(accepted, rest), t)
      {
        assert batch[i..][1..] == batch[i + 1..] && writable[i..][1..] == writable[i + 1..];
        StartedError(accepted);
        var processed := ProcessOne(batch[i], writable[i]);
        if processed.Err? { return Err(processed.error); }
        var (incident, outcome) := processed.value;
        ghost var first := if outcome == Accepted && incident.alert.FiringAlert? then [incident] else [];
        StartedTwice(accepted, first, BatchTx(Contents(), batch[i + 1..], writable[i + 1..]).0);
        if outcome == Accepted && incident.alert.FiringAlert? {
          accepted := accepted + [incident];
        } else {
          assert accepted + [] == accepted;
        }
      }
      StartedAll(accepted);
      return Ok(accepted);
    }

    /** Durably completes an identifier's key; the outbox message and report travel in the same transaction. */
    method MarkCompleted(id: string, writable: bool) returns (r: Result<(), DispatchError>)
      modifies this
      ensures match CompleteTx(old(Contents()), id, writable)
              case Ok(t) => r == Ok(()) && Contents() == t
              case Err(e) => r == Err(e) && Contents() == old(Contents())
    {
      var written := Append(Completed(id), writable);
      if !written { return Err(Journal); }
      var key := CorrelationKey(id);
      if key in lifecycle && lifecycle[key].Firing? {
        lifecycle := lifecycle[key := lifecycle[key].(completed := true)];
      }
      return Ok(());
    }

    /** The firing episodes that never reached a durable completion, by key. */
    method PendingInvestigations() returns (pending: map<string, Signal>)
      ensures forall key :: key in pending <==> Unfinished(Contents(), key) && PendingSignal(Contents(), key).Some?
      ensures forall key | key in pending :: Some(pending[key]) == PendingSignal(Contents(), key)
    {
      pending := map[];
      var left := lifecycle.Keys;
      ghost var d := Contents();
      while left != {}
        invariant left <= lifecycle.Keys
        invariant forall key :: key in pending <==>
                    key in lifecycle.Keys - left && Unfinished(d, key) && PendingSignal(d, key).Some?
        invariant forall key | key in pending :: Some(pending[key]) == PendingSignal(d, key)
        decreases |left|
      {
        var key :| key in left;
        left := left - {key};
        if lifecycle[key].Firing? && !lifecycle[key].completed {
          var p := PendingSignal(State(journal, lifecycle), key);
          if p.Some? { pending := pending[key := p.value]; }
        }
      }
    }
  }
}
