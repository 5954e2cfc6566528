/**
 The durable journal and its in-memory mirror (src/reasoning/storage.rs), and the flush of runtime
 events behind it (persist_runtime_events in src/reasoning/investigation.rs).
 */
module JournalStore {
  import opened Outcomes
  import opened Decimal

  const MAX_SEQUENCE: nat := 0x7FFF_FFFF_FFFF_FFFF

  datatype Scope = Scope(incident: string, run: string)

  datatype Entry = Entry(sequence: nat, context: Option<Scope>, event: string)

  datatype Message = Message(id: string, body: string)

  /** The tables (journal rows by primary key, markers, outbox bodies by delivery ID) and the journal in memory. */
  datatype Store = Store(rows: map<nat, Entry>, markers: set<string>, outbox: map<string, string>, memory: seq<Entry>)

  datatype StoreError = Sqlite | NonContiguousSequence

  /** How a commit ends: in effect, not in effect, or in effect although it reported an error. */
  datatype Commit = Committed | Failed | Unreported

  const EMPTY: Store := Store(map[], {}, map[], [])

  function Marker(id: string): string {
    "journal-checkpoint:" + id
  }

  function Entries(start: nat, events: seq<string>, context: Option<Scope>): seq<Entry> {
    seq(|events|, i requires 0 <= i < |events| => Entry(start + i, context, events[i]))
  }

  /** One INSERT per event; a taken or too large sequence fails the transaction. */
  function InsertAll(rows: map<nat, Entry>, start: nat, events: seq<string>, context: Option<Scope>): Option<map<nat, Entry>>
    decreases |events|
  {
    if events == [] then Some(rows)
    else if start > MAX_SEQUENCE || start in rows then None
    else InsertAll(rows[start := Entry(start, context, events[0])], start + 1, events[1..], context)
  }

  /** Events with whatever else the transaction writes; memory follows a reported commit only. */
  function Transact(s: Store, events: seq<string>, context: Option<Scope>, marker: set<string>, message: Option<Message>, commit: Commit)
    : (Result<nat, StoreError>, Store)
  {
    var start := |s.memory|;
    match InsertAll(s.rows, start, events, context)
    case None => (Err(Sqlite), s)
    case Some(rows) =>
      var outbox := if message.Some? && message.value.id !in s.outbox then s.outbox[message.value.id := message.value.body] else s.outbox;
      var durable := Store(rows, s.markers + marker, outbox, s.memory);
      match commit
      case Committed => (Ok(start), durable.(memory := s.memory + Entries(start, events, context)))
      case Failed => (Err(Sqlite), s)
      case Unreported => (Err(Sqlite), durable)
  }

  function AppendTx(s: Store, event: string, context: Option<Scope>, commit: Commit): (Result<nat, StoreError>, Store) {
    Transact(s, [event], context, {}, None, commit)
  }

  function CheckpointTx(s: Store, id: string, events: seq<string>, context: Option<Scope>, commit: Commit): (Result<bool, StoreError>, Store) {
    if Marker(id) in s.markers then (Ok(false), s) else
    var (r, t) := Transact(s, events, context, {Marker(id)}, None, commit);
    (match r case Ok(_) => Ok(true) case Err(e) => Err(e), t)
  }

  function OutboxTx(s: Store, events: seq<string>, message: Option<Message>, context: Option<Scope>, commit: Commit): (Result<nat, StoreError>, Store) {
    Transact(s, events, context, {}, message, commit)
  }

  /** Replaying the rows in sequence order. */
  function Replayed(rows: map<nat, Entry>): Option<seq<Entry>> {
    if forall n: nat | n < |rows| :: n in rows then Some(seq(|rows|, n requires 0 <= n < |rows| => rows[n])) else None
  }

  class JournalStore {
    var rows: map<nat, Entry>
    var markers: set<string>
    var outbox: map<string, string>
    var journal: seq<Entry>

    ghost function Contents(): Store
      reads this
    {
      Store(rows, markers, outbox, journal)
    }

    constructor ()
      ensures Contents() == EMPTY
    {
      rows, markers, outbox, journal := map[], {}, map[], [];
    }

    /** Opening the database again: the rows, in sequence order, become the journal. */
    method Open() returns (r: Result<(), StoreError>)
      modifies this`journal
      ensures match Replayed(rows)
              case Some(entries) => r == Ok(()) && journal == entries
              case None => r == Err(NonContiguousSequence)
    {
      var replay: seq<Entry> := [];
      while |replay| < |rows|
        invariant |replay| <= |rows|
        invariant forall n: nat | n < |replay| :: n in rows && replay[n] == rows[n]
        decreases |rows| - |replay|
      {
        if |replay| !in rows { return Err(NonContiguousSequence); }
        replay := replay + [rows[|replay|]];
      }
      journal := replay;
      return Ok(());
    }

    /** The INSERT loop of a transaction, on a copy of the rows. */
    method InsertEvents(events: seq<string>, context: Option<Scope>) returns (r: Option<map<nat, Entry>>)
      ensures r == InsertAll(rows, |journal|, events, context)
    {
      var start := |journal|;
      var copy: map<nat, Entry> := rows;
      for i := 0 to |events|
        invariant InsertAll(rows, start, events, context) == InsertAll(copy, start + i, events[i..], context)
      {
        if start + i > MAX_SEQUENCE || start + i in copy { return None; }
        copy := copy[start + i := Entry(start + i, context, events[i])];
      }
      return Some(copy);
    }

    /** Restoring the committed events into memory. */
    method Restore(events: seq<string>, context: Option<Scope>)
      modifies this`journal
      ensures journal == old(journal) + Entries(|old(journal)|, events, context)
    {
      var start := |journal|;
      for i := 0 to |events|
        invariant journal == old(journal) + Entries(start, events, context)[..i]
      {
        journal := journal + [Entry(start + i, context, events[i])];
      }
    }

    method AppendScoped(event: string, context: Option<Scope>, commit: Commit) returns (r: Result<nat, StoreError>)
      modifies this
      ensures (r, Contents()) == AppendTx(old(Contents()), event, context, commit)
    {
      hide InsertAll;
      assert markers + {} == markers;
      assert Entries(|journal|, [event], context) == [Entry(|journal|, context, event)];
      var sequence := |journal|;
      var inserted := InsertEvents([event], context);
      if inserted.None? || commit == Failed { return Err(Sqlite); }
      rows := inserted.value;
      if commit == Unreported { return Err(Sqlite); }
      journal := journal + [Entry(sequence, context, event)];
      return Ok(sequence);
    }

    method AppendCheckpointScoped(id: string, events: seq<string>, context: Option<Scope>, commit: Commit) returns (r: Result<bool, StoreError>)
      modifies this
      ensures (r, Contents()) == CheckpointTx(old(Contents()), id, events, context, commit)
    {
      hide InsertAll;
      if Marker(id) in markers { return Ok(false); }
      var inserted := InsertEvents(events, context);
      if inserted.None? || commit == Failed { return Err(Sqlite); }
      rows, markers := inserted.value, markers + {Marker(id)};
      if commit == Unreported { return Err(Sqlite); }
      Restore(events, context);
      return Ok(true);
    }

    method AppendWithOutboxScoped(events: seq<string>, message: Option<Message>, context: Option<Scope>, commit: Commit)
      returns (r: Result<nat, StoreError>)
      modifies this
      ensures (r, Contents()) == OutboxTx(old(Contents()), events, message, context, commit)
    {
      hide InsertAll;
      assert markers + {} == markers;
      var start := |journal|;
      var inserted := InsertEvents(events, context);
      if inserted.None? || commit == Failed { return Err(Sqlite); }
      rows := inserted.value;
      if message.Some? && message.value.id !in outbox {
        outbox := outbox[message.value.id := message.value.body];
      }
      if commit == Unreported { return Err(Sqlite); }
      Restore(events, context);
      return Ok(start);
    }

    /** `persist_runtime_events`: flushes what the runtime recorded since the last reported flush. */
    method PersistRuntimeEvents(runtime: seq<string>, context: Scope, persisted: nat, commit: Commit)
      returns (r: Result<(), StoreError>, now: nat)
      modifies this
      ensures forall durable ::
                var (result, f) := FlushTx(Flushing(old(Contents()), runtime, persisted, durable), context, commit);
                r == result && Contents() == f.store && now == f.persisted
    {
      hide CheckpointTx;
      if persisted >= |runtime| { return Ok(()), persisted; }
      var appended := AppendCheckpointScoped(FlushId(context, persisted), runtime[persisted..], Some(context), commit);
      if appended.Err? { return Err(appended.error), persisted; }
      return Ok(()), |runtime|;
    }
  }

  // ---- The mirror ----

  ghost predicate Contiguous(rows: map<nat, Entry>) {
    forall n: nat :: (n in rows <==> n < |rows|) && (n in rows ==> rows[n].sequence == n)
  }

  /** The journal the rows hold. */
  function Log(rows: map<nat, Entry>): seq<Entry> {
    seq(|rows|, n requires 0 <= n < |rows| => if n in rows then rows[n] else Entry(n, None, ""))
  }

  /** Rows are numbered without gaps, and memory is a prefix of them. */
  ghost predicate Mirror(s: Store) {
    Contiguous(s.rows) && |s.memory| <= |s.rows| && s.memory == Log(s.rows)[..|s.memory|]
  }

  datatype Step =
    | Append(event: string, context: Option<Scope>, commit: Commit)
    | Checkpoint(id: string, events: seq<string>, context: Option<Scope>, commit: Commit)
    | Outbox(events: seq<string>, message: Option<Message>, context: Option<Scope>, commit: Commit)
    | Reopen

  function Apply(s: Store, step: Step): Store {
    match step
    case Append(event, context, commit) => AppendTx(s, event, context, commit).1
    case Checkpoint(id, events, context, commit) => CheckpointTx(s, id, events, context, commit).1
    case Outbox(events, message, context, commit) => OutboxTx(s, events, message, context, commit).1
    case Reopen => match Replayed(s.rows) case Some(entries) => s.(memory := entries) case None => s
  }

  function Run(s: Store, steps: seq<Step>): Store
    decreases |steps|
  {
    if steps == [] then s else Run(Apply(s, steps[0]), steps[1..])
  }

  /** A history is made of its steps, each taken where the one before ended. */
  lemma {:induction false} RunAppends(s: Store, steps: seq<Step>, step: Step)
    ensures Run(s, []) == s
    ensures var (t, u) := (Run(s, steps), Run(s, steps + [step]));
            match step
            case Append(event, context, commit) => u == AppendTx(t, event, context, commit).1
            case Checkpoint(id, events, context, commit) => u == CheckpointTx(t, id, events, context, commit).1
            case Outbox(events, message, context, commit) => u == OutboxTx(t, events, message, context, commit).1
            case Reopen => u == if Replayed(t.rows).Some? then Store(t.rows, t.markers, t.outbox, Replayed(t.rows).value) else t
    decreases |steps|
  {
    hide AppendTx, CheckpointTx, OutboxTx, Replayed;
    if steps == [] {
      assert [step][1..] == [];
    } else {
      assert (steps + [step])[1..] == steps[1..] + [step];
      RunAppends(Apply(s, steps[0]), steps[1..], step);
    }
  }

  /** One row behind all others. */
  lemma AddRow(rows: map<nat, Entry>, e: Entry)
    requires Contiguous(rows) && e.sequence == |rows|
    ensures var more := rows[e.sequence := e]; Contiguous(more) && |more| == |rows| + 1 && Log(more) == Log(rows) + [e]
  {
    var more := rows[e.sequence := e];
    assert e.sequence !in rows;
    assert |more| == |rows| + 1;
    forall n: nat | n < |more| ensures Log(more)[n] == (Log(rows) + [e])[n] {
    }
  }

  lemma EntriesHead(start: nat, events: seq<string>, context: Option<Scope>)
    requires events != []
    ensures Entries(start, events, context) == [Entry(start, context, events[0])] + Entries(start + 1, events[1..], context)
  {
  }

  lemma EntriesNone(start: nat, context: Option<Scope>)
    ensures Entries(start, [], context) == []
  {
  }

  lemma JoinLogs(a: seq<Entry>, e: Entry, b: seq<Entry>)
    ensures a + [e] + b == a + ([e] + b)
  {
  }

  /** Inserting behind all rows extends the log; inserting anywhere before that fails. */
  lemma {:induction false} InsertExtends(rows: map<nat, Entry>, start: nat, events: seq<string>, context: Option<Scope>)
    requires Contiguous(rows) && start <= |rows|
    ensures var r := InsertAll(rows, start, events, context);
            && (r.Some? ==> Contiguous(r.value) && (events == [] || start == |rows|)
                            && Log(r.value) == Log(rows) + Entries(|rows|, events, context))
            && (events == [] ==> r == Some(rows))
    decreases |events|
  {
    hide Log, Entries;
    if events == [] {
      EntriesNone(|rows|, context);
    } else if start == |rows| && start <= MAX_SEQUENCE {
      hide Contiguous;
      var e := Entry(start, context, events[0]);
      AddRow(rows, e);
      EntriesHead(start, events, context);
      InsertExtends(rows[start := e], start + 1, events[1..], context);
      JoinLogs(Log(rows), e, Entries(start + 1, events[1..], context));
    }
  }

  /** The events a step would write, and for whom. */
  function Offered(step: Step): (seq<string>, Option<Scope>) {
    match step
    case Append(event, context, _) => ([event], context)
    case Checkpoint(_, events, context, _) => (events, context)
    case Outbox(events, _, context, _) => (events, context)
    case Reopen => ([], None)
  }

  lemma TransactWrites(s: Store, events: seq<string>, context: Option<Scope>, marker: set<string>, message: Option<Message>, commit: Commit)
    requires Mirror(s)
    ensures var t := Transact(s, events, context, marker, message, commit).1;
            && Mirror(t)
            && (t.rows == s.rows || Log(t.rows) == Log(s.rows) + Entries(|s.rows|, events, context))
            && (t.memory == s.memory || t.memory == Log(t.rows))
  {
    hide InsertAll, Contiguous, Log, Entries;
    InsertExtends(s.rows, |s.memory|, events, context);
    EntriesNone(|s.memory|, context);
    var inserted := InsertAll(s.rows, |s.memory|, events, context);
    if inserted.Some? && events != [] {
      InsertedMirrors(s, inserted.value, events, context);
    }
  }

  /** With all rows in memory, the rows' new log is what memory becomes. */
  lemma InsertedMirrors(s: Store, rows: map<nat, Entry>, events: seq<string>, context: Option<Scope>)
    requires Mirror(s) && |s.memory| == |s.rows| && Log(rows) == Log(s.rows) + Entries(|s.rows|, events, context)
    ensures s.memory + Entries(|s.memory|, events, context) == Log(rows) == Log(rows)[..|rows|]
    ensures |s.memory| <= |rows| && s.memory == Log(rows)[..|s.memory|] && |s.memory + Entries(|s.memory|, events, context)| == |rows|
  {
    hide Contiguous, InsertAll;
    assert |Log(rows)| == |rows| && |Log(s.rows)| == |s.rows|;
    assert s.memory == Log(s.rows);
  }

  /** A step appends all of its events behind the rows, or none. */
  lemma StepWrites(s: Store, step: Step)
    requires Mirror(s)
    ensures var t := Apply(s, step);
            && Mirror(t)
            && (t.rows == s.rows || Log(t.rows) == Log(s.rows) + Entries(|s.rows|, Offered(step).0, Offered(step).1))
            && (t.memory == s.memory || t.memory == Log(t.rows))
            && (step.Reopen? ==> t.rows == s.rows && t.memory == Log(t.rows))
  {
    hide Transact, Contiguous, Log, Entries, Replayed;
    match step
    case Append(event, context, commit) => TransactWrites(s, [event], context, {}, None, commit);
    case Checkpoint(id, events, context, commit) => TransactWrites(s, events, context, {Marker(id)}, None, commit);
    case Outbox(events, message, context, commit) => TransactWrites(s, events, context, {}, message, commit);
    case Reopen => ReplayIsLog(s.rows);
  }

  lemma ReplayIsLog(rows: map<nat, Entry>)
    requires Contiguous(rows)
    ensures Replayed(rows) == Some(Log(rows)) && Log(rows)[..|rows|] == Log(rows)
  {
    assert forall n: nat | n < |rows| :: n in rows;
    assert Replayed(rows).value == Log(rows);
  }

  lemma {:induction false} MirrorKept(s: Store, steps: seq<Step>)
    requires Mirror(s)
    ensures Mirror(Run(s, steps))
    decreases |steps|
  {
    hide Mirror, Apply;
    if steps != [] {
      StepWrites(s, steps[0]);
      MirrorKept(Apply(s, steps[0]), steps[1..]);
    }
  }

  /**
   The mirror, over every run of appends, checkpoints, failed and unreported commits, crashes and
   reopenings of a new database: rows are numbered 0..n-1 and memory is a prefix of them.
   */
  lemma RunKeepsMirror(steps: seq<Step>)
    ensures Mirror(Run(EMPTY, steps))
  {
    MirrorKept(EMPTY, steps);
  }

  predicate Reported(step: Step) {
    step.Reopen? || step.commit != Unreported
  }

  /** Without unreported commits memory equals the rows after every step. */
  lemma {:induction false} RunInStep(s: Store, steps: seq<Step>)
    requires Mirror(s) && s.memory == Log(s.rows) && forall i | 0 <= i < |steps| :: Reported(steps[i])
    ensures Run(s, steps).memory == Log(Run(s, steps).rows)
    decreases |steps|
  {
    if steps != [] {
      StepInStep(s, steps[0]);
      StepWrites(s, steps[0]);
      RunInStep(Apply(s, steps[0]), steps[1..]);
    }
  }

  lemma StepInStep(s: Store, step: Step)
    requires Mirror(s) && s.memory == Log(s.rows) && Reported(step)
    ensures Apply(s, step).memory == Log(Apply(s, step).rows)
  {
    hide InsertAll, Contiguous;
    var (events, context) := Offered(step);
    assert |Log(s.rows)| == |s.rows|;
    InsertExtends(s.rows, |s.memory|, events, context);
    if step.Reopen? {
      ReplayIsLog(s.rows);
    }
  }

  /** After an unreported commit of events no further event is written until the store is reopened. */
  lemma StaleMemoryRefuses(s: Store, step: Step)
    requires Mirror(s) && |s.memory| < |s.rows| && !step.Reopen?
    ensures Apply(s, step).rows == s.rows
    ensures step.Append? ==> AppendTx(s, step.event, step.context, step.commit).0.Err?
    ensures step.Checkpoint? && step.events != [] && Marker(step.id) !in s.markers ==>
              CheckpointTx(s, step.id, step.events, step.context, step.commit).0.Err?
    ensures step.Outbox? && step.events != [] ==> OutboxTx(s, step.events, step.message, step.context, step.commit).0.Err?
  {
    hide Contiguous;
    var (events, context) := Offered(step);
    InsertExtends(s.rows, |s.memory|, events, context);
  }

  // ---- Checkpoints happen at most once ----

  /** The step durably wrote this checkpoint. */
  predicate Took(s: Store, step: Step, id: string) {
    step.Checkpoint? && step.id == id && Marker(id) !in s.markers && Marker(id) in Apply(s, step).markers
  }

  function Takings(s: Store, steps: seq<Step>, id: string): nat
    decreases |steps|
  {
    if steps == [] then 0 else (if Took(s, steps[0], id) then 1 else 0) + Takings(Apply(s, steps[0]), steps[1..], id)
  }

  /** A checkpoint that took wrote exactly its events; any other attempt at it wrote nothing. */
  lemma CheckpointWrites(s: Store, step: Step)
    requires Mirror(s) && step.Checkpoint?
    ensures var t := Apply(s, step);
            Log(t.rows) == Log(s.rows) + if Took(s, step, step.id) then Entries(|s.rows|, step.events, step.context) else []
    ensures step.commit == Unreported ==> (Apply(s, step) != s ==> Took(s, step, step.id))
  {
    hide Contiguous;
    InsertExtends(s.rows, |s.memory|, step.events, step.context);
  }

  lemma MarkerInjective(a: string, b: string)
    requires Marker(a) == Marker(b)
    ensures a == b
  {
    assert a == Marker(a)[|"journal-checkpoint:"|..] && b == Marker(b)[|"journal-checkpoint:"|..];
  }

  lemma MarkersStay(s: Store, step: Step)
    ensures s.markers <= Apply(s, step).markers
    ensures !step.Checkpoint? ==> Apply(s, step).markers == s.markers
    ensures step.Checkpoint? ==> Apply(s, step).markers <= s.markers + {Marker(step.id)}
  {
    hide InsertAll;
  }

  /** Whatever the retries, crashes and outcomes, the events of a checkpoint ID are written at most once. */
  lemma {:induction false} CheckpointAtMostOnce(s: Store, steps: seq<Step>, id: string)
    ensures Takings(s, steps, id) <= if Marker(id) in s.markers then 0 else 1
    ensures Takings(s, steps, id) == 1 <==> Marker(id) !in s.markers && Marker(id) in Run(s, steps).markers
    ensures s.markers <= Run(s, steps).markers
    decreases |steps|
  {
    hide Apply;
    if steps != [] {
      var step := steps[0];
      MarkersStay(s, step);
      CheckpointAtMostOnce(Apply(s, step), steps[1..], id);
      if Marker(id) in Apply(s, step).markers && Marker(id) !in s.markers {
        assert step.Checkpoint?;
        MarkerInjective(id, step.id);
      }
    }
  }

  // ---- Flushing runtime events ----

  function FlushId(context: Scope, persisted: nat): string {
    "runtime-events:" + context.run + ":" + Print(persisted)
  }

  /**
   A run's runtime journal, how much of it is believed flushed, and which of its positions flushes
   have durably written, in order.
   */
  datatype Flushing = Flushing(store: Store, runtime: seq<string>, persisted: nat, durable: seq<nat>)

  function Range(a: nat, b: nat): seq<nat>
    requires a <= b
  {
    seq(b - a, i requires 0 <= i < b - a => a + i)
  }

  function FlushTx(f: Flushing, context: Scope, commit: Commit): (Result<(), StoreError>, Flushing) {
    if f.persisted >= |f.runtime| then (Ok(()), f) else
    var id := FlushId(context, f.persisted);
    var (r, store) := CheckpointTx(f.store, id, f.runtime[f.persisted..], Some(context), commit);
    var wrote := Marker(id) !in f.store.markers && Marker(id) in store.markers;
    var g := f.(store := store, durable := f.durable + if wrote then Range(f.persisted, |f.runtime|) else []);
    match r
    case Err(e) => (Err(e), g)
    case Ok(_) => (Ok(()), g.(persisted := |f.runtime|))
  }

  datatype FlushStep = Grow(event: string) | Flush(commit: Commit) | Elsewhere(step: Step)

  function FlushApply(f: Flushing, context: Scope, step: FlushStep): Flushing {
    match step
    case Grow(event) => f.(runtime := f.runtime + [event])
    case Flush(commit) => FlushTx(f, context, commit).1
    case Elsewhere(other) => f.(store := Apply(f.store, other))
  }

  function FlushRun(f: Flushing, context: Scope, steps: seq<FlushStep>): Flushing
    decreases |steps|
  {
    if steps == [] then f else FlushRun(FlushApply(f, context, steps[0]), context, steps[1..])
  }

  /** A history is made of its steps, each taken where the one before ended. */
  lemma {:induction false} FlushRunAppends(f: Flushing, context: Scope, steps: seq<FlushStep>, step: FlushStep)
    ensures FlushRun(f, context, []) == f
    ensures var (g, h) := (FlushRun(f, context, steps), FlushRun(f, context, steps + [step]));
            match step
            case Grow(event) => h == Flushing(g.store, g.runtime + [event], g.persisted, g.durable)
            case Flush(commit) => h == FlushTx(g, context, commit).1
            case Elsewhere(other) => h == Flushing(Apply(g.store, other), g.runtime, g.persisted, g.durable)
    decreases |steps|
  {
    hide FlushTx, Apply;
    if steps == [] {
      assert [step][1..] == [];
    } else {
      assert (steps + [step])[1..] == steps[1..] + [step];
      FlushRunAppends(FlushApply(f, context, steps[0]), context, steps[1..], step);
    }
  }

  /** Other writers of the journal do not use this run's flush checkpoints. */
  ghost predicate Foreign(context: Scope, step: FlushStep) {
    step.Elsewhere? && step.step.Checkpoint? ==> forall n: nat :: step.step.id != FlushId(context, n)
  }

  predicate Marked(f: Flushing, context: Scope, n: nat) {
    Marker(FlushId(context, n)) in f.store.markers
  }

  ghost predicate Increasing(s: seq<nat>) {
    forall i, j | 0 <= i < j < |s| :: s[i] < s[j]
  }

  /** The first runtime position behind everything durable. */
  function Frontier(f: Flushing): nat {
    if f.durable == [] then 0 else f.durable[|f.durable| - 1] + 1
  }

  /**
   Durable positions increase and lie in the runtime journal. A marker at the believed position
   means an unreported flush from there; otherwise nothing behind that position is durable.
   */
  ghost predicate FlushInv(f: Flushing, context: Scope) {
    && f.persisted <= |f.runtime| && Increasing(f.durable) && Frontier(f) <= |f.runtime|
    && (forall n: nat | n > f.persisted :: !Marked(f, context, n))
    && (if Marked(f, context, f.persisted) then f.persisted < Frontier(f) else Frontier(f) <= f.persisted)
  }

  lemma FlushIdInjective(context: Scope, m: nat, n: nat)
    requires Marker(FlushId(context, m)) == Marker(FlushId(context, n))
    ensures m == n
  {
    hide Print;
    MarkerInjective(FlushId(context, m), FlushId(context, n));
    var head := "runtime-events:" + context.run + ":";
    assert Print(m) == FlushId(context, m)[|head|..] && Print(n) == FlushId(context, n)[|head|..];
    PrintInjective(m, n);
  }

  lemma IncreasingAppend(s: seq<nat>, a: nat, b: nat)
    requires Increasing(s) && a < b && (s != [] ==> s[|s| - 1] < a)
    ensures Increasing(s + Range(a, b)) && (s + Range(a, b))[|s| + (b - a) - 1] == b - 1
  {
    var t := s + Range(a, b);
    forall i, j | 0 <= i < j < |t| ensures t[i] < t[j] {
      assert i < |s| ==> t[i] == s[i] && t[i] <= s[|s| - 1];
    }
  }

  lemma FlushKeepsInv(f: Flushing, context: Scope, commit: Commit)
    requires FlushInv(f, context)
    ensures FlushInv(FlushTx(f, context, commit).1, context)
  {
    hide InsertAll, Increasing, FlushId, Marker;
    var (r, g) := FlushTx(f, context, commit);
    if f.persisted < |f.runtime| {
      var step := Checkpoint(FlushId(context, f.persisted), f.runtime[f.persisted..], Some(context), commit);
      MarkersStay(f.store, step);
      forall n: nat | n > f.persisted ensures !Marked(g, context, n) {
        assert !Marked(f, context, n);
        if Marker(FlushId(context, n)) == Marker(FlushId(context, f.persisted)) {
          FlushIdInjective(context, n, f.persisted);
        }
      }
      if g.durable != f.durable {
        IncreasingAppend(f.durable, f.persisted, |f.runtime|);
      }
    }
  }

  lemma FlushStepKeepsInv(f: Flushing, context: Scope, step: FlushStep)
    requires FlushInv(f, context) && Foreign(context, step)
    ensures FlushInv(FlushApply(f, context, step), context)
  {
    hide Increasing, Apply, FlushId, Marker, FlushTx;
    match step
    case Flush(commit) => FlushKeepsInv(f, context, commit);
    case Grow(_) =>
      assert forall n: nat :: Marked(FlushApply(f, context, step), context, n) == Marked(f, context, n);
    case Elsewhere(other) =>
      MarkersStay(f.store, other);
      var g := FlushApply(f, context, step);
      forall n: nat ensures Marked(g, context, n) == Marked(f, context, n) {
        if other.Checkpoint? && Marker(FlushId(context, n)) == Marker(other.id) {
          MarkerInjective(FlushId(context, n), other.id);
        }
      }
  }

  /** Over every run, flushed runtime events are written in order and never twice. */
  lemma {:induction false} FlushedInOrder(f: Flushing, context: Scope, steps: seq<FlushStep>)
    requires FlushInv(f, context) && forall i | 0 <= i < |steps| :: Foreign(context, steps[i])
    ensures FlushInv(FlushRun(f, context, steps), context) && Increasing(FlushRun(f, context, steps).durable)
    decreases |steps|
  {
    hide Foreign, FlushApply, Increasing;
    if steps != [] {
      FlushStepKeepsInv(f, context, steps[0]);
      FlushedInOrder(FlushApply(f, context, steps[0]), context, steps[1..]);
    }
  }

  /** The runtime events at the given positions. */
  function TextsAt(runtime: seq<string>, positions: seq<nat>): seq<string> {
    seq(|positions|, i requires 0 <= i < |positions| => if positions[i] < |runtime| then runtime[positions[i]] else "")
  }

  lemma TextsFrom(runtime: seq<string>, a: nat)
    requires a <= |runtime|
    ensures TextsAt(runtime, Range(a, |runtime|)) == runtime[a..]
  {
  }

  lemma TextsNone(runtime: seq<string>, rows: map<nat, Entry>, context: Option<Scope>)
    ensures TextsAt(runtime, []) == [] && Log(rows) == Log(rows) + Entries(|rows|, [], context)
  {
    EntriesNone(|rows|, context);
  }

  lemma AddedIs(durable: seq<nat>, added: seq<nat>)
    ensures (durable + added)[|durable|..] == added && (durable + added)[..|durable|] == durable
  {
  }

  /** A flush durably writes the runtime events at exactly the positions it adds, in that order. */
  lemma FlushWritesRuntime(f: Flushing, context: Scope, commit: Commit)
    requires Mirror(f.store)
    ensures var g := FlushTx(f, context, commit).1;
            && |g.durable| >= |f.durable| && g.durable[..|f.durable|] == f.durable
            && (forall i | |f.durable| <= i < |g.durable| :: g.durable[i] < |f.runtime|)
            && Log(g.store.rows) == Log(f.store.rows)
               + Entries(|f.store.rows|, TextsAt(f.runtime, g.durable[|f.durable|..]), Some(context))
  {
    hide *;
    TextsNone(f.runtime, f.store.rows, Some(context));
    AddedIs(f.durable, []);
    if f.persisted < |f.runtime| {
      var step := Checkpoint(FlushId(context, f.persisted), f.runtime[f.persisted..], Some(context), commit);
      FlushIsCheckpoint(f, context, commit);
      CheckpointWrites(f.store, step);
      if Took(f.store, step, step.id) {
        AddedIs(f.durable, Range(f.persisted, |f.runtime|));
        TextsFrom(f.runtime, f.persisted);
        RangeBelow(f.durable, f.persisted, |f.runtime|);
      }
    } else {
      FlushNothing(f, context, commit);
    }
  }

  lemma RangeBelow(durable: seq<nat>, a: nat, b: nat)
    requires a <= b
    ensures forall i | |durable| <= i < |durable + Range(a, b)| :: (durable + Range(a, b))[i] < b
  {
  }

  lemma FlushNothing(f: Flushing, context: Scope, commit: Commit)
    requires f.persisted >= |f.runtime|
    ensures FlushTx(f, context, commit) == (Ok(()), f)
    ensures f.durable + [] == f.durable
  {
  }

  lemma FlushIsCheckpoint(f: Flushing, context: Scope, commit: Commit)
    requires f.persisted < |f.runtime|
    ensures var step := Checkpoint(FlushId(context, f.persisted), f.runtime[f.persisted..], Some(context), commit);
            var g := FlushTx(f, context, commit).1;
            && g.store == Apply(f.store, step)
            && g.durable == f.durable + if Took(f.store, step, step.id) then Range(f.persisted, |f.runtime|) else []
  {
    hide CheckpointTx, FlushId, Marker;
  }

  /** Everything believed flushed is durable. */
  ghost predicate Settled(f: Flushing) {
    f.durable == Range(0, |f.durable|) && f.persisted <= |f.durable|
  }

  /** A retry that an unreported flush already answered, although the runtime has grown since. */
  predicate Overtaken(f: Flushing, context: Scope) {
    Marked(f, context, f.persisted) && Frontier(f) < |f.runtime|
  }

  /**
   The flush on its own, for any caller: one that succeeds settles the runtime journal if and only if
   it does not retry an unreported flush after the journal has grown. A run that ends at its first
   failure makes no such call.
   */
  lemma FlushSettlesExactly(f: Flushing, context: Scope, commit: Commit)
    requires FlushInv(f, context) && Settled(f) && FlushTx(f, context, commit).0.Ok?
    ensures Settled(FlushTx(f, context, commit).1) <==> !Overtaken(f, context)
  {
    hide InsertAll, FlushId, Marker;
    var g := FlushTx(f, context, commit).1;
    SettledFrontier(f);
    if f.persisted < |f.runtime| && !Marked(f, context, f.persisted) {
      assert Range(0, f.persisted) + Range(f.persisted, |f.runtime|) == Range(0, |f.runtime|);
    }
  }

  lemma SettledFrontier(f: Flushing)
    requires Settled(f)
    ensures Frontier(f) == |f.durable|
  {
    assert f.durable != [] ==> f.durable[|f.durable| - 1] == Range(0, |f.durable|)[|f.durable| - 1];
  }

  /** Failed flushes, growth and other writers never unsettle it either. */
  lemma StepSettles(f: Flushing, context: Scope, step: FlushStep)
    requires FlushInv(f, context) && Settled(f) && Foreign(context, step) && !(step.Flush? && Overtaken(f, context))
    ensures Settled(FlushApply(f, context, step))
  {
    hide InsertAll, FlushId, Marker, Apply;
    if step.Flush? {
      if FlushTx(f, context, step.commit).0.Ok? {
        FlushSettlesExactly(f, context, step.commit);
      } else {
        SettledFrontier(f);
        if f.persisted < |f.runtime| && !Marked(f, context, f.persisted) {
          assert Range(0, f.persisted) + Range(f.persisted, |f.runtime|) == Range(0, |f.runtime|);
        }
      }
    }
  }

  /**
   A run of one investigation: it ends at the first flush that reports an error, so afterwards only
   other writers of the journal act.
   */
  ghost predicate EndsAtFailure(f: Flushing, context: Scope, steps: seq<FlushStep>)
    decreases |steps|
  {
    steps == [] ||
    if steps[0].Flush? && FlushTx(f, context, steps[0].commit).0.Err? then forall i | 1 <= i < |steps| :: steps[i].Elsewhere?
    else EndsAtFailure(FlushApply(f, context, steps[0]), context, steps[1..])
  }

  /** While no flush has failed, no marker lies at the believed position, so no flush is overtaken. */
  lemma StepKeepsUnmarked(f: Flushing, context: Scope, step: FlushStep)
    requires FlushInv(f, context) && !Marked(f, context, f.persisted) && Foreign(context, step)
    requires step.Flush? ==> FlushTx(f, context, step.commit).0.Ok?
    ensures var g := FlushApply(f, context, step); !Marked(g, context, g.persisted)
  {
    hide FlushId, Marker, Apply, Increasing, CheckpointTx;
    var g := FlushApply(f, context, step);
    FlushStepKeepsInv(f, context, step);
    if step.Elsewhere? {
      ElsewhereMarks(f, context, step.step, f.persisted);
    } else if step.Flush? && f.persisted < |f.runtime| {
      FlushReachesEnd(f, context, step.commit);
    }
  }

  lemma ElsewhereMarks(f: Flushing, context: Scope, other: Step, n: nat)
    requires Foreign(context, Elsewhere(other))
    ensures Marked(f.(store := Apply(f.store, other)), context, n) == Marked(f, context, n)
  {
    hide Apply, FlushId, Marker;
    MarkersStay(f.store, other);
    if other.Checkpoint? && Marker(FlushId(context, n)) == Marker(other.id) {
      MarkerInjective(FlushId(context, n), other.id);
    }
  }

  /** A flush that is no retry and reports success has written everything there is. */
  lemma FlushReachesEnd(f: Flushing, context: Scope, commit: Commit)
    requires f.persisted < |f.runtime| && !Marked(f, context, f.persisted) && FlushTx(f, context, commit).0.Ok?
    ensures var g := FlushTx(f, context, commit).1; g.persisted == |f.runtime| == Frontier(g) && g.runtime == f.runtime
  {
    hide FlushId, Marker, InsertAll;
    assert Range(f.persisted, |f.runtime|)[|f.runtime| - f.persisted - 1] == |f.runtime| - 1;
  }

  lemma {:induction false} ElsewhereSettles(f: Flushing, context: Scope, steps: seq<FlushStep>)
    requires Settled(f) && forall i | 0 <= i < |steps| :: steps[i].Elsewhere?
    ensures Settled(FlushRun(f, context, steps))
    decreases |steps|
  {
    hide Apply;
    if steps != [] {
      ElsewhereSettles(FlushApply(f, context, steps[0]), context, steps[1..]);
    }
  }

  lemma {:induction false} RunSettles(f: Flushing, context: Scope, steps: seq<FlushStep>)
    requires FlushInv(f, context) && Settled(f) && !Marked(f, context, f.persisted) && EndsAtFailure(f, context, steps)
    requires forall i | 0 <= i < |steps| :: Foreign(context, steps[i])
    ensures Settled(FlushRun(f, context, steps))
    decreases |steps|
  {
    hide Foreign, FlushApply, Settled, FlushInv, Marked, FlushTx;
    if steps != [] {
      FlushStepKeepsInv(f, context, steps[0]);
      NotOvertaken(f, context);
      StepSettles(f, context, steps[0]);
      var g := FlushApply(f, context, steps[0]);
      if steps[0].Flush? && FlushTx(f, context, steps[0].commit).0.Err? {
        ElsewhereSettles(g, context, steps[1..]);
      } else {
        StepKeepsUnmarked(f, context, steps[0]);
        RunSettles(g, context, steps[1..]);
      }
    }
  }

  lemma NotOvertaken(f: Flushing, context: Scope)
    requires !Marked(f, context, f.persisted)
    ensures !Overtaken(f, context)
  {
  }

  /**
   The durable runtime events of an investigation are, at every moment, an in-order and
   duplicate-free prefix of its runtime journal, at least as long as it believes: over every run with
   any other writers, failed and unreported commits, crashes and reopenings, from a run ID no flush
   has used.
   */
  lemma FlushedIsPrefix(store: Store, context: Scope, steps: seq<FlushStep>)
    requires forall n: nat :: Marker(FlushId(context, n)) !in store.markers
    requires EndsAtFailure(Flushing(store, [], 0, []), context, steps)
    requires forall i | 0 <= i < |steps| :: Foreign(context, steps[i])
    ensures var f := FlushRun(Flushing(store, [], 0, []), context, steps);
            Settled(f) && |f.durable| <= |f.runtime|
  {
    hide FlushId, Marker, FlushRun, EndsAtFailure, Foreign, Increasing;
    var fresh0 := Flushing(store, [], 0, []);
    FreshRunSettled(store, context);
    RunSettles(fresh0, context, steps);
    FlushedInOrder(fresh0, context, steps);
    SettledFrontier(FlushRun(fresh0, context, steps));
  }

  // ---- The same, in terms of rows ----

  /** The rows the run's own flushes add to the table, in the order of the table. */
  function FlushedRows(f: Flushing, context: Scope, steps: seq<FlushStep>): seq<Entry>
    decreases |steps|
  {
    if steps == [] then [] else
    var g := FlushApply(f, context, steps[0]);
    var (before, after) := (Log(f.store.rows), Log(g.store.rows));
    (if steps[0].Flush? && |before| <= |after| then after[|before|..] else []) + FlushedRows(g, context, steps[1..])
  }

  function Texts(rows: seq<Entry>): seq<string> {
    seq(|rows|, i requires 0 <= i < |rows| => rows[i].event)
  }

  ghost predicate InScope(rows: seq<Entry>, context: Scope) {
    forall i | 0 <= i < |rows| :: rows[i].context == Some(context)
  }

  lemma FlushAddsRows(f: Flushing, context: Scope, commit: Commit)
    requires Mirror(f.store)
    ensures |Log(f.store.rows)| <= |Log(FlushTx(f, context, commit).1.store.rows)|
    ensures var g := FlushTx(f, context, commit).1;
            var added := Log(g.store.rows)[|Log(f.store.rows)|..];
            && |f.durable| <= |g.durable| && g.durable[..|f.durable|] == f.durable && g.runtime == f.runtime
            && Texts(added) == TextsAt(f.runtime, g.durable[|f.durable|..]) && InScope(added, context)
            && (forall i | |f.durable| <= i < |g.durable| :: g.durable[i] < |f.runtime|)
  {
    hide FlushTx, Log, Mirror;
    FlushWritesRuntime(f, context, commit);
    FlushKeepsRuntime(f, context, commit);
    var g := FlushTx(f, context, commit).1;
    var entries := Entries(|f.store.rows|, TextsAt(f.runtime, g.durable[|f.durable|..]), Some(context));
    assert (Log(f.store.rows) + entries)[|Log(f.store.rows)|..] == entries;
    assert Texts(entries) == TextsAt(f.runtime, g.durable[|f.durable|..]);
  }

  lemma FlushKeepsRuntime(f: Flushing, context: Scope, commit: Commit)
    ensures FlushTx(f, context, commit).1.runtime == f.runtime
  {
    hide CheckpointTx;
  }

  lemma FlushStepKeepsMirror(f: Flushing, context: Scope, step: FlushStep)
    requires Mirror(f.store)
    ensures Mirror(FlushApply(f, context, step).store)
  {
    hide Mirror, Apply, CheckpointTx, FlushId, Marker;
    match step
    case Grow(_) =>
    case Elsewhere(other) => StepWrites(f.store, other);
    case Flush(commit) =>
      if f.persisted < |f.runtime| {
        FlushIsCheckpoint(f, context, commit);
        StepWrites(f.store, Checkpoint(FlushId(context, f.persisted), f.runtime[f.persisted..], Some(context), commit));
      }
  }

  /** Texts at positions the runtime journal has already reached stay as it grows. */
  lemma TextsStay(runtime: seq<string>, longer: seq<string>, positions: seq<nat>)
    requires runtime <= longer && forall i | 0 <= i < |positions| :: positions[i] < |runtime|
    ensures TextsAt(longer, positions) == TextsAt(runtime, positions)
  {
  }

  lemma {:induction false} RuntimeGrows(f: Flushing, context: Scope, steps: seq<FlushStep>)
    ensures f.runtime <= FlushRun(f, context, steps).runtime
    decreases |steps|
  {
    hide FlushTx, Apply;
    if steps != [] {
      if steps[0].Flush? { FlushKeepsRuntime(f, context, steps[0].commit); }
      RuntimeGrows(FlushApply(f, context, steps[0]), context, steps[1..]);
    }
  }

  lemma TextsJoin(runtime: seq<string>, a: seq<nat>, b: seq<nat>, durable: seq<nat>, middle: seq<nat>, all: seq<nat>)
    requires |durable| <= |middle| <= |all| && middle[..|durable|] == durable && all[..|middle|] == middle
    requires a == middle[|durable|..] && b == all[|middle|..]
    ensures all[..|durable|] == durable && TextsAt(runtime, all[|durable|..]) == TextsAt(runtime, a) + TextsAt(runtime, b)
  {
    assert all[|durable|..] == a + b;
  }

  lemma RowsJoin(x: seq<Entry>, y: seq<Entry>, context: Scope)
    ensures Texts(x + y) == Texts(x) + Texts(y)
    ensures InScope(x, context) && InScope(y, context) ==> InScope(x + y, context)
  {
  }

  /** Over every run, the rows flushed hold the runtime events at the positions counted durable, in order. */
  lemma {:induction false} FlushedRowsAre(f: Flushing, context: Scope, steps: seq<FlushStep>)
    requires Mirror(f.store)
    ensures var (g, rows) := (FlushRun(f, context, steps), FlushedRows(f, context, steps));
            && |f.durable| <= |g.durable| && g.durable[..|f.durable|] == f.durable && InScope(rows, context)
            && Texts(rows) == TextsAt(g.runtime, g.durable[|f.durable|..])
    decreases |steps|
  {
    hide FlushTx, FlushApply, Log, Mirror, InScope, Texts, TextsAt;
    if steps == [] {
      NoRows(f, context);
    } else {
      var h := FlushApply(f, context, steps[0]);
      var g := FlushRun(f, context, steps);
      FlushStepKeepsMirror(f, context, steps[0]);
      FlushedRowsAre(h, context, steps[1..]);
      RuntimeGrows(h, context, steps[1..]);
      FlushStepRows(f, context, steps[0]);
      var added := if steps[0].Flush? then Log(h.store.rows)[|Log(f.store.rows)|..] else [];
      var positions := h.durable[|f.durable|..];
      TextsStay(h.runtime, g.runtime, positions);
      TextsJoin(g.runtime, positions, g.durable[|h.durable|..], f.durable, h.durable, g.durable);
      RowsJoin(added, FlushedRows(h, context, steps[1..]), context);
    }
  }

  lemma NoRows(f: Flushing, context: Scope)
    ensures f.durable[..|f.durable|] == f.durable && InScope([], context)
    ensures Texts([]) == TextsAt(f.runtime, f.durable[|f.durable|..])
  {
  }

  lemma FlushStepRows(f: Flushing, context: Scope, step: FlushStep)
    requires Mirror(f.store)
    ensures var g := FlushApply(f, context, step);
            && |f.durable| <= |g.durable| && g.durable[..|f.durable|] == f.durable
            && (step.Flush? ==> |Log(f.store.rows)| <= |Log(g.store.rows)|)
            && var added := if step.Flush? then Log(g.store.rows)[|Log(f.store.rows)|..] else [];
               var positions := g.durable[|f.durable|..];
               && InScope(added, context) && Texts(added) == TextsAt(g.runtime, positions)
               && forall i | 0 <= i < |positions| :: positions[i] < |g.runtime|
  {
    hide FlushTx, Log, Mirror, Apply;
    if step.Flush? {
      FlushAddsRows(f, context, step.commit);
    }
  }

  /**
   In rows: those the flushes of a run wrote hold, in the order of the table and under its scope, the
   first events of its runtime journal, each once, and at least all it believes flushed.
   */
  lemma FlushedRowsArePrefix(store: Store, context: Scope, steps: seq<FlushStep>)
    requires Mirror(store) && forall n: nat :: Marker(FlushId(context, n)) !in store.markers
    requires EndsAtFailure(Flushing(store, [], 0, []), context, steps)
    requires forall i | 0 <= i < |steps| :: Foreign(context, steps[i])
    ensures var (f, rows) := (FlushRun(Flushing(store, [], 0, []), context, steps), FlushedRows(Flushing(store, [], 0, []), context, steps));
            f.persisted <= |rows| <= |f.runtime| && Texts(rows) == f.runtime[..|rows|] && InScope(rows, context)
  {
    hide FlushId, Marker, FlushRun, EndsAtFailure, Foreign, Mirror, FlushedRows, InScope;
    var fresh0 := Flushing(store, [], 0, []);
    FlushedIsPrefix(store, context, steps);
    FlushedRowsAre(fresh0, context, steps);
    var f := FlushRun(fresh0, context, steps);
    assert f.durable[0..] == f.durable;
    assert TextsAt(f.runtime, Range(0, |f.durable|)) == f.runtime[..|f.durable|];
    assert |Texts(FlushedRows(fresh0, context, steps))| == |FlushedRows(fresh0, context, steps)|;
  }

  /** A run whose ID was never flushed before starts settled. */
  lemma FreshRunSettled(store: Store, context: Scope)
    requires forall n: nat :: Marker(FlushId(context, n)) !in store.markers
    ensures var f := Flushing(store, [], 0, []); FlushInv(f, context) && Settled(f) && !Marked(f, context, 0)
  {
  }

  // ---- When a transaction takes effect, and what it leaves ----

  /** All events find a free 64-bit sequence: memory is in step, or there are none. */
  ghost predicate Fits(s: Store, events: seq<string>) {
    events == [] || (|s.memory| == |s.rows| && |s.rows| + |events| - 1 <= 0x7FFF_FFFF_FFFF_FFFF)
  }

  lemma {:induction false} InsertsExactly(rows: map<nat, Entry>, start: nat, events: seq<string>, context: Option<Scope>)
    requires Contiguous(rows) && start <= |rows|
    ensures InsertAll(rows, start, events, context).Some? <==>
              events == [] || (start == |rows| && start + |events| - 1 <= 0x7FFF_FFFF_FFFF_FFFF)
    decreases |events|
  {
    if events != [] && start == |rows| && start <= MAX_SEQUENCE {
      AddRow(rows, Entry(start, context, events[0]));
      InsertsExactly(rows[start := Entry(start, context, events[0])], start + 1, events[1..], context);
    }
  }

  /** The rows were extended by the events, the outbox by the message unless its ID was known, memory only if that was reported. */
  ghost predicate TookEffect(s: Store, t: Store, events: seq<string>, context: Option<Scope>, marker: set<string>, message: Option<Message>, reported: bool) {
    && Log(t.rows) == Log(s.rows) + Entries(|s.rows|, events, context)
    && t.memory == (if reported then s.memory + Entries(|s.memory|, events, context) else s.memory)
    && t.markers == s.markers + marker
    && (forall id :: id in t.outbox <==> id in s.outbox || (message.Some? && message.value.id == id))
    && (forall id | id in t.outbox :: t.outbox[id] == if id in s.outbox then s.outbox[id] else message.value.body)
  }

  lemma TransactsExactly(s: Store, events: seq<string>, context: Option<Scope>, marker: set<string>, message: Option<Message>, commit: Commit)
    requires Mirror(s)
    ensures var (r, t) := Transact(s, events, context, marker, message, commit);
            && r == (if Fits(s, events) && commit == Committed then Ok(|s.memory|) else Err(Sqlite))
            && (if Fits(s, events) && commit != Failed then TookEffect(s, t, events, context, marker, message, commit == Committed) else t == s)
  {
    hide Contiguous, InsertAll;
    InsertsExactly(s.rows, |s.memory|, events, context);
    InsertExtends(s.rows, |s.memory|, events, context);
    if events == [] { EntriesNone(|s.rows|, context); }
  }

  /** One event is appended, and its sequence answered, if and only if memory is in step, a sequence is left and the commit ends so. */
  lemma AppendsExactly(s: Store, event: string, context: Option<Scope>, commit: Commit)
    requires Mirror(s)
    ensures var (r, t) := AppendTx(s, event, context, commit);
            var fits := |s.memory| == |s.rows| <= 0x7FFF_FFFF_FFFF_FFFF;
            && r == (if fits && commit == Committed then Ok(|s.memory|) else Err(Sqlite))
            && (if fits && commit != Failed then TookEffect(s, t, [event], context, {}, None, commit == Committed) else t == s)
  {
    hide Mirror, Transact, TookEffect;
    TransactsExactly(s, [event], context, {}, None, commit);
  }

  /** A checkpoint whose marker is there answers false; a new one takes its events and its marker, or neither. */
  lemma CheckpointsExactly(s: Store, id: string, events: seq<string>, context: Option<Scope>, commit: Commit)
    requires Mirror(s)
    ensures var (r, t) := CheckpointTx(s, id, events, context, commit);
            var marker := "journal-checkpoint:" + id;
            if marker in s.markers then r == Ok(false) && t == s else
            && r == (if Fits(s, events) && commit == Committed then Ok(true) else Err(Sqlite))
            && (if Fits(s, events) && commit != Failed then TookEffect(s, t, events, context, {marker}, None, commit == Committed) else t == s)
  {
    hide Mirror, Transact, TookEffect, Fits;
    TransactsExactly(s, events, context, {Marker(id)}, None, commit);
  }

  /** Events and notification are committed together or not at all, and a known delivery keeps its body. */
  lemma NotifiesExactly(s: Store, events: seq<string>, message: Option<Message>, context: Option<Scope>, commit: Commit)
    requires Mirror(s)
    ensures var (r, t) := OutboxTx(s, events, message, context, commit);
            && r == (if Fits(s, events) && commit == Committed then Ok(|s.memory|) else Err(Sqlite))
            && (if Fits(s, events) && commit != Failed then TookEffect(s, t, events, context, {}, message, commit == Committed) else t == s)
  {
    hide Mirror, Transact, TookEffect, Fits;
    TransactsExactly(s, events, context, {}, message, commit);
  }

  /** Over any run, a recorded delivery keeps its body. */
  lemma {:induction false} DeliveriesStay(s: Store, steps: seq<Step>, id: string)
    requires id in s.outbox
    ensures var t := Run(s, steps); id in t.outbox && t.outbox[id] == s.outbox[id]
    decreases |steps|
  {
    hide InsertAll, Replayed;
    if steps != [] {
      DeliveriesStay(Apply(s, steps[0]), steps[1..], id);
    }
  }

  /** Opening succeeds if and only if the rows are numbered from 0 without a gap, and reads them in that order. */
  lemma ReplaysExactly(rows: map<nat, Entry>)
    ensures Replayed(rows).Some? <==> forall n: nat :: n in rows <==> n < |rows|
    ensures Replayed(rows).Some? ==> |Replayed(rows).value| == |rows| && forall n: nat | n < |rows| :: Replayed(rows).value[n] == rows[n]
  {
    if forall n: nat | n < |rows| :: n in rows {
      forall n: nat | n in rows ensures n < |rows| {
        if n >= |rows| { OneTooMany(rows.Keys, |rows|, n); }
      }
    }
  }

  lemma {:induction false} OneTooMany(keys: set<nat>, k: nat, n: nat)
    requires (forall i: nat | i < k :: i in keys) && n in keys && n >= k
    ensures |keys| > k
  {
    if k > 0 { OneTooMany(keys - {k - 1}, k - 1, n); }
  }

  /**
   A flush succeeds if and only if nothing is pending, its checkpoint was written before, or its events
   fit and are committed. Whatever was pending then counts as flushed, and a checkpoint written before
   writes nothing again.
   */
  lemma FlushesExactly(f: Flushing, context: Scope, commit: Commit)
    requires Mirror(f.store)
    ensures var (r, g) := FlushTx(f, context, commit);
            var pending := if f.persisted < |f.runtime| then f.runtime[f.persisted..] else [];
            var written := Marked(f, context, f.persisted);
            && (r.Ok? <==> pending == [] || written || (Fits(f.store, pending) && commit == Committed))
            && g.runtime == f.runtime && g.persisted == (if r.Ok? && pending != [] then |f.runtime| else f.persisted)
            && (if pending != [] && !written && Fits(f.store, pending) && commit != Failed
                then Log(g.store.rows) == Log(f.store.rows) + Entries(|f.store.rows|, pending, Some(context))
                else g.store == f.store)
  {
    hide Mirror, CheckpointTx, FlushId, Fits;
    if f.persisted < |f.runtime| {
      CheckpointsExactly(f.store, FlushId(context, f.persisted), f.runtime[f.persisted..], Some(context), commit);
    }
  }

  /** Two runs never share a flush checkpoint. */
  lemma FlushIdsDistinct(c: Scope, m: nat, d: Scope, n: nat)
    ensures FlushId(c, m) == FlushId(d, n) <==> c.run == d.run && m == n
  {
    hide Print;
    var (a, b) := (FlushId(c, m), FlushId(d, n));
    if a == b {
      var (k, l) := (|a| - |Print(m)| - 1, |b| - |Print(n)| - 1);
      assert a[k] == ':' && b[l] == ':';
      assert a[k + 1..] == Print(m) && b[l + 1..] == Print(n);
      ColonBefore(a, k, Print(n));
      ColonBefore(b, l, Print(m));
      assert c.run == a[|"runtime-events:"|..k] && d.run == b[|"runtime-events:"|..l];
      PrintInjective(m, n);
    }
  }

  lemma ColonBefore(text: string, k: nat, digits: string)
    requires k < |text| && text[k] == ':' && |digits| <= |text| && text[|text| - |digits|..] == digits && AllDigits(digits)
    ensures k < |text| - |digits|
  {
    var start := |text| - |digits|;
    assert forall j | start <= j < |text| :: text[j] == text[start..][j - start] && IsDigit(digits[j - start]);
  }
}
