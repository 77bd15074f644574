/**
 The hourly retention tick: old prompt rows are purged, except those of
 experiments whose content window is open, and the content of experiments whose
 window has elapsed is redacted and their notes cleared.  Every step can fail.
 */
module Retention {
  import opened Common

  type Instant = int

  const DAY := 86_400
  const CONTENT_NOT_STORED := "(content storage disabled — see [storage] in config.toml)"

  /** `closedAt` is `None` when it is missing or cannot be read as a time. */
  datatype Experiment = Experiment(id: int, active: bool, closedAt: Option<Instant>, retains: bool, retentionDays: int)

  /** The columns that outlive the content. */
  datatype Stamps = Stamps(promptTokens: int, completionTokens: int, latencyMs: Option<int>, variant: Option<string>, correlation: Option<string>)

  datatype Row = Row(experiment: Option<int>, createdAt: Instant, messages: string, response: Option<string>, stamps: Stamps)

  datatype Outcome = Outcome(experiment: Option<int>, result: string, note: Option<string>)

  type Rows = map<int, Row>
  type Outcomes = map<int, Outcome>

  // ---------------------------------------------------------------- windows

  predicate WindowOpen(e: Experiment, now: Instant) {
    e.active || e.retentionDays == 0 || (e.closedAt.Some? && now < e.closedAt.value + e.retentionDays * DAY)
  }

  /** Experiments are listed by id. */
  ghost predicate ById(experiments: seq<Experiment>) {
    forall i, j :: 0 <= i < j < |experiments| ==> experiments[i].id < experiments[j].id
  }

  /** The ids whose rows the sweep leaves alone. */
  function Protected(experiments: seq<Experiment>, now: Instant): (ids: seq<int>)
    ensures forall id :: id in ids <==> exists e <- experiments :: e.id == id && e.retains && WindowOpen(e, now)
  {
    if experiments == [] then []
    else
      var e := experiments[0];
      (if e.retains && WindowOpen(e, now) then [e.id] else []) + Protected(experiments[1..], now)
  }

  predicate IsElapsed(e: Experiment, now: Instant) {
    e.retains && !e.active && !WindowOpen(e, now)
  }

  /** The ids whose content has to go, in id order. */
  function Elapsed(experiments: seq<Experiment>, now: Instant): (ids: seq<int>)
    ensures forall id :: id in ids <==> exists e <- experiments :: e.id == id && IsElapsed(e, now)
  {
    if experiments == [] then []
    else
      var e := experiments[|experiments| - 1];
      Elapsed(experiments[..|experiments| - 1], now) + (if IsElapsed(e, now) then [e.id] else [])
  }

  // ---------------------------------------------------------------- the stores

  predicate Doomed(row: Row, cutoff: Instant, kept: seq<int>) {
    row.createdAt < cutoff && (row.experiment.None? || row.experiment.value !in kept)
  }

  function Redacted(row: Row): Row {
    row.(messages := CONTENT_NOT_STORED, response := None)
  }

  predicate HoldsContent(row: Row) {
    row.messages != CONTENT_NOT_STORED || row.response.Some?
  }

  function ContentOf(rows: Rows, experiment: int): set<int> {
    set id | id in rows && rows[id].experiment == Some(experiment) && HoldsContent(rows[id])
  }

  function NotesOf(outcomes: Outcomes, experiment: int): set<int> {
    set id | id in outcomes && outcomes[id].experiment == Some(experiment) && outcomes[id].note.Some?
  }

  function RedactedRows(rows: Rows, experiment: int): Rows {
    map id | id in rows :: if rows[id].experiment == Some(experiment) then Redacted(rows[id]) else rows[id]
  }

  function ClearedOutcomes(outcomes: Outcomes, experiment: int): Outcomes {
    map id | id in outcomes :: if outcomes[id].experiment == Some(experiment) then outcomes[id].(note := None) else outcomes[id]
  }

  /** Some doomed rows are gone and every other row is as it was. */
  ghost predicate Purging(before: Rows, after: Rows, cutoff: Instant, kept: seq<int>) {
    && after.Keys <= before.Keys
    && (forall id <- after :: after[id] == before[id])
    && (forall id <- before :: id !in after ==> Doomed(before[id], cutoff, kept))
  }

  ghost predicate Purged(before: Rows, after: Rows, cutoff: Instant, kept: seq<int>) {
    Purging(before, after, cutoff, kept) && forall id <- after :: !Doomed(after[id], cutoff, kept)
  }

  /** The doomed rows that are left all belong to `experiments`. */
  ghost predicate LeftOnlyIn(rows: Rows, cutoff: Instant, kept: seq<int>, experiments: set<int>) {
    forall id <- rows :: Doomed(rows[id], cutoff, kept) ==> rows[id].experiment.Some? && rows[id].experiment.value in experiments
  }

  function Old(rows: Rows, cutoff: Instant): set<int> {
    set id | id in rows && rows[id].createdAt < cutoff
  }

  function Unstamped(rows: Rows, cutoff: Instant): set<int> {
    set id | id in rows && rows[id].createdAt < cutoff && rows[id].experiment.None?
  }

  function Stamped(rows: Rows, cutoff: Instant, experiments: set<int>): set<int> {
    set id | id in rows && rows[id].createdAt < cutoff && rows[id].experiment.Some? && rows[id].experiment.value in experiments
  }

  /** The experiments of old rows, but for those kept. */
  function Expendable(rows: Rows, cutoff: Instant, kept: seq<int>): set<int> {
    set id | id in rows && rows[id].createdAt < cutoff && rows[id].experiment.Some? &&
             rows[id].experiment.value !in kept :: rows[id].experiment.value
  }

  lemma OldAreGone(rows: Rows, cutoff: Instant)
    ensures Purged(rows, rows - Old(rows, cutoff), cutoff, [])
  {
  }

  lemma UnstampedAreGone(rows: Rows, cutoff: Instant, kept: seq<int>)
    ensures var after := rows - Unstamped(rows, cutoff);
            Purging(rows, rows, cutoff, kept) && Purging(rows, after, cutoff, kept) &&
            LeftOnlyIn(after, cutoff, kept, Expendable(after, cutoff, kept))
  {
  }

  lemma StampedAreGone(before: Rows, rows: Rows, cutoff: Instant, kept: seq<int>, expendable: set<int>, chunk: set<int>)
    requires Purging(before, rows, cutoff, kept) && LeftOnlyIn(rows, cutoff, kept, expendable)
    requires forall x <- chunk :: x !in kept
    ensures var after := rows - Stamped(rows, cutoff, chunk);
            Purging(before, after, cutoff, kept) && LeftOnlyIn(after, cutoff, kept, expendable - chunk)
  {
    var doomed := Stamped(rows, cutoff, chunk);
    var after := rows - doomed;
    forall id | id in doomed ensures Doomed(rows[id], cutoff, kept) {
      var x: int := rows[id].experiment.value;
      assert x in chunk && x !in kept;
    }
    assert forall id :: id in after <==> id in rows && id !in doomed;
  }

  const PURGE_ID_CHUNK := 500

  /** At most `n` elements of a set, some when there are any. */
  method TakeUpTo(s: set<int>, n: nat) returns (chunk: set<int>)
    requires n > 0
    ensures chunk <= s && |chunk| <= n && (s != {} ==> chunk != {})
  {
    chunk := {};
    var rest: set<int> := s;
    while rest != {} && |chunk| < n
      invariant chunk <= s && |chunk| <= n && rest <= s && (s != {} ==> chunk != {} || rest != {})
      decreases rest
    {
      assert (forall id :: id !in rest) ==> rest == {};
      var id: int :| id in rest;
      chunk, rest := chunk + {id}, rest - {id};
    }
  }

  class PromptStore {
    var rows: Rows

    /** Delete the rows of one statement; `failing` is whether the database refuses it. */
    method Delete(doomed: set<int>, failing: bool) returns (deleted: Option<nat>)
      modifies this
      ensures deleted.None? <==> failing
      ensures failing ==> rows == old(rows)
      ensures !failing ==> rows == old(rows) - doomed && deleted.value == |old(rows)| - |rows|
    {
      if failing {
        return None;
      }
      var before := rows;
      rows := rows - doomed;
      assert before.Keys == rows.Keys + (before.Keys * doomed);
      deleted := Some(|before| - |rows|);
    }

    /**
     The sweep, statement by statement; statement number `failAt` fails.  A
     failed sweep may have deleted some rows already, but only doomed ones.
     */
    method PurgeOlderThanExcept(cutoff: Instant, kept: seq<int>, failAt: Option<nat>) returns (deleted: Option<nat>)
      modifies this
      ensures Purging(old(rows), rows, cutoff, kept)
      ensures deleted.Some? ==> Purged(old(rows), rows, cutoff, kept) && deleted.value == |old(rows)| - |rows|
      ensures failAt.None? ==> deleted.Some?
    {
      if kept == [] {
        OldAreGone(rows, cutoff);
        deleted := Delete(Old(rows, cutoff), failAt == Some(0));
        return;
      }
      UnstampedAreGone(rows, cutoff, kept);
      deleted := Delete(Unstamped(rows, cutoff), failAt == Some(0));
      if deleted.None? || failAt == Some(1) {
        return None;
      }
      var total: nat := deleted.value;
      var expendable := Expendable(rows, cutoff, kept);
      var statement := 2;
      while expendable != {}
        invariant Purging(old(rows), rows, cutoff, kept)
        invariant LeftOnlyIn(rows, cutoff, kept, expendable)
        invariant forall x <- expendable :: x !in kept
        invariant total == |old(rows)| - |rows| && statement >= 2
        decreases expendable
      {
        var chunk := TakeUpTo(expendable, PURGE_ID_CHUNK);
        StampedAreGone(old(rows), rows, cutoff, kept, expendable, chunk);
        deleted := Delete(Stamped(rows, cutoff, chunk), failAt == Some(statement));
        if deleted.None? {
          return None;
        }
        total := total + deleted.value;
        expendable := expendable - chunk;
        statement := statement + 1;
      }
      deleted := Some(total);
    }

    /** Redact every row of the experiment; the count is of rows that still held content. */
    method RedactExperimentContent(experiment: int, failing: bool) returns (redacted: Option<nat>)
      modifies this
      ensures redacted.None? <==> failing
      ensures rows == if failing then old(rows) else RedactedRows(old(rows), experiment)
      ensures redacted.Some? ==> redacted.value == |ContentOf(old(rows), experiment)|
    {
      if failing {
        return None;
      }
      var changed := ContentOf(rows, experiment);
      var before := rows;
      rows := map id | id in rows :: if id in changed then Redacted(rows[id]) else rows[id];
      forall id | id in before
        ensures rows[id] == RedactedRows(before, experiment)[id]
      {
      }
      assert rows == RedactedRows(before, experiment);
      redacted := Some(|changed|);
    }
  }

  class OutcomeStore {
    var outcomes: Outcomes

    method ClearNotes(experiment: int, failing: bool) returns (cleared: Option<nat>)
      modifies this
      ensures cleared.None? <==> failing
      ensures outcomes == if failing then old(outcomes) else ClearedOutcomes(old(outcomes), experiment)
      ensures cleared.Some? ==> cleared.value == |NotesOf(old(outcomes), experiment)|
    {
      if failing {
        return None;
      }
      var changed := NotesOf(outcomes, experiment);
      var before := outcomes;
      outcomes := map id | id in outcomes :: if id in changed then outcomes[id].(note := None) else outcomes[id];
      forall id | id in before
        ensures outcomes[id] == ClearedOutcomes(before, experiment)[id]
      {
      }
      assert outcomes == ClearedOutcomes(before, experiment);
      cleared := Some(|changed|);
    }
  }

  // ---------------------------------------------------------------- one tick

  /** What fails during one tick. */
  datatype Faults = Faults(openList: bool, purgeAt: Option<nat>, closedList: bool, redactions: set<int>, notes: set<int>)

  const NO_FAULTS := Faults(false, None, false, {}, {})

  /** Inputs of one tick: the experiment list as each half reads it, and the operator's policy. */
  datatype Inputs = Inputs(
    atSweep: seq<Experiment>, atExpiry: seq<Experiment>, retentionDays: nat, now: Instant, earliest: Instant,
    faults: Faults)

  datatype SweepOutcome = Disabled | SkippedUnreadable | Swept(deleted: nat, kept: seq<int>) | Failed

  datatype Expired = Expired(experiment: int, redacted: nat, notesCleared: nat)

  /** Failures by experiment id; an unreadable list of closed experiments is recorded under 0. */
  datatype Report = Report(sweep: SweepOutcome, expired: seq<Expired>, failures: seq<int>)

  const MAX_SPAN_DAYS := 106_751_991_167

  function Cutoff(w: Inputs): Instant {
    w.now - w.retentionDays * DAY
  }

  /** The span is representable; an absurd one keeps everything. */
  predicate Representable(w: Inputs) {
    w.retentionDays <= MAX_SPAN_DAYS && w.earliest <= Cutoff(w)
  }

  function Kept(w: Inputs): seq<int> {
    Protected(w.atSweep, w.now)
  }

  function Due(w: Inputs): seq<int> {
    if w.faults.closedList then [] else Elapsed(w.atExpiry, w.now)
  }

  /** The experiments among `due` whose content, and whose notes, this tick removes. */
  predicate Redacts(w: Inputs, due: seq<int>, experiment: Option<int>) {
    experiment.Some? && experiment.value in due && experiment.value !in w.faults.redactions
  }

  predicate Clears(w: Inputs, due: seq<int>, experiment: Option<int>) {
    Redacts(w, due, experiment) && experiment.value !in w.faults.notes
  }

  function RowAfter(w: Inputs, due: seq<int>, row: Row): Row {
    if Redacts(w, due, row.experiment) then Redacted(row) else row
  }

  function OutcomeAfter(w: Inputs, due: seq<int>, o: Outcome): Outcome {
    if Clears(w, due, o.experiment) then o.(note := None) else o
  }

  function ExpiredIn(w: Inputs, rows: Rows, outcomes: Outcomes, due: seq<int>): seq<Expired> {
    if due == [] then []
    else
      var id := due[|due| - 1];
      ExpiredIn(w, rows, outcomes, due[..|due| - 1]) +
      (if id in w.faults.redactions then []
       else [Expired(id, |ContentOf(rows, id)|, if id in w.faults.notes then 0 else |NotesOf(outcomes, id)|)])
  }

  function FailuresIn(w: Inputs, due: seq<int>): seq<int> {
    if due == [] then []
    else
      var id := due[|due| - 1];
      FailuresIn(w, due[..|due| - 1]) + (if id in w.faults.redactions || id in w.faults.notes then [id] else [])
  }

  /** How the sweep may end, and what rows it leaves. */
  ghost predicate SweepStep(w: Inputs, before: Rows, after: Rows, sweep: SweepOutcome) {
    match sweep
    case Disabled => after == before && (w.retentionDays == 0 || (!w.faults.openList && !Representable(w)))
    case SkippedUnreadable => after == before && w.retentionDays > 0 && w.faults.openList
    case Swept(deleted, kept) =>
      w.retentionDays > 0 && !w.faults.openList && Representable(w) && kept == Kept(w) &&
      Purged(before, after, Cutoff(w), kept) && deleted == |before| - |after|
    case Failed =>
      w.retentionDays > 0 && !w.faults.openList && Representable(w) && w.faults.purgeAt.Some? &&
      Purging(before, after, Cutoff(w), Kept(w))
  }

  datatype Stores = Stores(rows: Rows, outcomes: Outcomes)

  /** What the second half leaves: each row and each outcome for itself, whatever fails for others. */
  function Expiry(w: Inputs, due: seq<int>, s: Stores): Stores {
    Stores(map id | id in s.rows :: RowAfter(w, due, s.rows[id]),
           map id | id in s.outcomes :: OutcomeAfter(w, due, s.outcomes[id]))
  }

  /** One tick from `before` to `after`, through the rows `swept` that the sweep leaves. */
  ghost predicate TickThrough(w: Inputs, before: Stores, swept: Rows, after: Stores, r: Report) {
    && SweepStep(w, before.rows, swept, r.sweep)
    && after == Expiry(w, Due(w), Stores(swept, before.outcomes))
    && r.expired == ExpiredIn(w, swept, before.outcomes, Due(w))
    && r.failures == if w.faults.closedList then [0] else FailuresIn(w, Due(w))
  }

  ghost predicate TickStep(w: Inputs, before: Stores, after: Stores, r: Report) {
    exists swept :: TickThrough(w, before, swept, after, r)
  }

  method GlobalSweep(prompts: PromptStore, w: Inputs) returns (sweep: SweepOutcome)
    modifies prompts
    ensures SweepStep(w, old(prompts.rows), prompts.rows, sweep)
  {
    if w.retentionDays == 0 {
      return Disabled;
    }
    if w.faults.openList {
      return SkippedUnreadable;
    }
    var kept := Kept(w);
    if !Representable(w) {
      return Disabled;
    }
    var deleted := prompts.PurgeOlderThanExcept(Cutoff(w), kept, w.faults.purgeAt);
    sweep := if deleted.Some? then Swept(deleted.value, kept) else Failed;
  }

  /** Expiring one more experiment changes nothing that the others hold. */
  lemma ExpiryOfOthers(w: Inputs, due: seq<int>, s: Stores, id: int)
    requires id !in due
    ensures ContentOf(Expiry(w, due, s).rows, id) == ContentOf(s.rows, id)
    ensures NotesOf(Expiry(w, due, s).outcomes, id) == NotesOf(s.outcomes, id)
  {
    var after := Expiry(w, due, s);
    assert forall x :: x in ContentOf(after.rows, id) <==> x in ContentOf(s.rows, id);
    assert forall x :: x in NotesOf(after.outcomes, id) <==> x in NotesOf(s.outcomes, id);
  }

  lemma RowsOfOneMore(w: Inputs, due: seq<int>, s: Stores, id: int)
    ensures var before, after := Expiry(w, due, s).rows, Expiry(w, due + [id], s).rows;
            after == if id in w.faults.redactions then before else RedactedRows(before, id)
  {
    var before, after := Expiry(w, due, s).rows, Expiry(w, due + [id], s).rows;
    var rows := if id in w.faults.redactions then before else RedactedRows(before, id);
    assert forall x :: x in after <==> x in rows;
    assert forall x <- rows :: after[x] == rows[x];
  }

  lemma OutcomesOfOneMore(w: Inputs, due: seq<int>, s: Stores, id: int)
    ensures var before, after := Expiry(w, due, s).outcomes, Expiry(w, due + [id], s).outcomes;
            after == if id in w.faults.redactions || id in w.faults.notes then before else ClearedOutcomes(before, id)
  {
    var before, after := Expiry(w, due, s).outcomes, Expiry(w, due + [id], s).outcomes;
    var outs := if id in w.faults.redactions || id in w.faults.notes then before else ClearedOutcomes(before, id);
    assert forall x :: x in after <==> x in outs;
    assert forall x <- outs :: after[x] == outs[x];
  }

  lemma ElapsedSoFar(experiments: seq<Experiment>, now: Instant, i: nat)
    requires i < |experiments| && ById(experiments)
    ensures Elapsed(experiments[..i + 1], now) ==
            Elapsed(experiments[..i], now) + (if IsElapsed(experiments[i], now) then [experiments[i].id] else [])
    ensures !IsElapsed(experiments[i], now) ==> Elapsed(experiments[..i + 1], now) == Elapsed(experiments[..i], now)
    ensures experiments[i].id !in Elapsed(experiments[..i], now)
  {
    assert experiments[..i + 1][..i] == experiments[..i];
    assert Elapsed(experiments[..i], now) + [] == Elapsed(experiments[..i], now);
  }

  /** Redact and clear for every elapsed experiment, going on when one fails. */
  method ExpireClosed(prompts: PromptStore, outcomes: OutcomeStore, w: Inputs)
    returns (expired: seq<Expired>, failures: seq<int>)
    requires ById(w.atExpiry)
    modifies prompts, outcomes
    ensures Stores(prompts.rows, outcomes.outcomes) == Expiry(w, Due(w), old(Stores(prompts.rows, outcomes.outcomes)))
    ensures expired == ExpiredIn(w, old(prompts.rows), old(outcomes.outcomes), Due(w))
    ensures failures == if w.faults.closedList then [0] else FailuresIn(w, Due(w))
  {
    ghost var start := Stores(prompts.rows, outcomes.outcomes);
    expired, failures := [], [];
    NothingDue(w, start);
    if w.faults.closedList {
      failures := [0];
      return;
    }
    for i := 0 to |w.atExpiry|
      invariant Stores(prompts.rows, outcomes.outcomes) == Expiry(w, Elapsed(w.atExpiry[..i], w.now), start)
      invariant expired == ExpiredIn(w, start.rows, start.outcomes, Elapsed(w.atExpiry[..i], w.now))
      invariant failures == FailuresIn(w, Elapsed(w.atExpiry[..i], w.now))
    {
      ghost var due := Elapsed(w.atExpiry[..i], w.now);
      var e := w.atExpiry[i];
      ElapsedSoFar(w.atExpiry, w.now, i);
      if IsElapsed(e, w.now) {
        var id := e.id;
        ExpiryOfOthers(w, due, start, id);
        RowsOfOneMore(w, due, start, id);
        OutcomesOfOneMore(w, due, start, id);
        OneMoreDue(w, start, due, id);
        var redacted := prompts.RedactExperimentContent(id, id in w.faults.redactions);
        if redacted.None? {
          failures := failures + [id];
          continue;
        }
        var cleared := outcomes.ClearNotes(id, id in w.faults.notes);
        if cleared.None? {
          failures := failures + [id];
        }
        expired := expired + [Expired(id, redacted.value, if cleared.Some? then cleared.value else 0)];
      }
    }
    assert w.atExpiry[..|w.atExpiry|] == w.atExpiry;
  }

  lemma NothingDue(w: Inputs, s: Stores)
    ensures Expiry(w, [], s) == s
  {
    var after := Expiry(w, [], s);
    assert forall x <- s.rows :: x in after.rows && after.rows[x] == s.rows[x];
    assert forall x <- s.outcomes :: x in after.outcomes && after.outcomes[x] == s.outcomes[x];
  }

  lemma OneMoreDue(w: Inputs, s: Stores, due: seq<int>, id: int)
    ensures ExpiredIn(w, s.rows, s.outcomes, due + [id]) == ExpiredIn(w, s.rows, s.outcomes, due) +
              (if id in w.faults.redactions then []
               else [Expired(id, |ContentOf(s.rows, id)|, if id in w.faults.notes then 0 else |NotesOf(s.outcomes, id)|)])
    ensures FailuresIn(w, due + [id]) ==
              FailuresIn(w, due) + (if id in w.faults.redactions || id in w.faults.notes then [id] else [])
  {
    assert (due + [id])[..|due|] == due;
  }

  method RunRetentionTick(prompts: PromptStore, outcomes: OutcomeStore, w: Inputs) returns (r: Report)
    requires ById(w.atExpiry)
    modifies prompts, outcomes
    ensures TickStep(w, old(Stores(prompts.rows, outcomes.outcomes)), Stores(prompts.rows, outcomes.outcomes), r)
  {
    ghost var before := Stores(prompts.rows, outcomes.outcomes);
    var sweep := GlobalSweep(prompts, w);
    ghost var swept := prompts.rows;
    var expired, failures := ExpireClosed(prompts, outcomes, w);
    r := Report(sweep, expired, failures);
    assert TickThrough(w, before, swept, Stores(prompts.rows, outcomes.outcomes), r);
  }
}
