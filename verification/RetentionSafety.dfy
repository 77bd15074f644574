/**
 What retention ticks keep, one tick and over every run of ticks, failures and
 ordinary traffic.
 */
module RetentionSafety {
  import opened Common
  import opened Retention

  // ---------------------------------------------------------------- one tick

  /** Rows that stay keep every column but the content; no row appears. */
  lemma StampsSurvive(w: Inputs, before: Stores, after: Stores, r: Report, id: int)
    requires TickStep(w, before, after, r) && id in after.rows
    ensures id in before.rows
    ensures after.rows[id] == before.rows[id] || after.rows[id] == Redacted(before.rows[id])
    ensures after.rows[id].stamps == before.rows[id].stamps
    ensures after.rows[id].experiment == before.rows[id].experiment && after.rows[id].createdAt == before.rows[id].createdAt
  {
    var swept: Rows :| TickThrough(w, before, swept, after, r);
    assert id in swept;
  }

  /** The content window as the policy states it: active, kept for ever, or not yet as many days behind the close. */
  predicate MayKeep(e: Experiment, now: Instant) {
    e.active || e.retentionDays == 0 || (e.closedAt.Some? && now < e.closedAt.value + e.retentionDays * 86_400)
  }

  /** Only rows older than the operator's days are deleted, and none of an experiment that may keep its content. */
  lemma DeletedRowsAreOld(w: Inputs, before: Stores, after: Stores, r: Report, id: int)
    requires TickStep(w, before, after, r) && id in before.rows && id !in after.rows
    ensures w.retentionDays > 0 && !w.faults.openList
    ensures before.rows[id].createdAt + w.retentionDays * 86_400 < w.now
    ensures forall e <- w.atSweep :: e.retains && MayKeep(e, w.now) ==> before.rows[id].experiment != Some(e.id)
  {
    var swept: Rows :| TickThrough(w, before, swept, after, r);
    assert id !in swept;
    forall e <- w.atSweep | e.retains && MayKeep(e, w.now) ensures before.rows[id].experiment != Some(e.id) {
      assert WindowOpen(e, w.now);
      assert e.id in Kept(w);
    }
  }

  /** After a sweep that went through, rows of that age are left only to experiments that may keep their content. */
  lemma OldRowsGo(w: Inputs, before: Stores, after: Stores, r: Report, id: int)
    requires TickStep(w, before, after, r) && r.sweep.Swept?
    requires id in after.rows && after.rows[id].createdAt + w.retentionDays * 86_400 < w.now
    ensures exists e <- w.atSweep :: e.retains && MayKeep(e, w.now) && after.rows[id].experiment == Some(e.id)
  {
    var swept: Rows :| TickThrough(w, before, swept, after, r);
    assert id in swept && !Doomed(swept[id], Cutoff(w), Kept(w));
    var x := swept[id].experiment.value;
    assert x in Kept(w);
  }

  /**
   The sweep is left out exactly when no days are set, or too many to be counted
   back from now; with a list that can be read and no failing statement it goes
   through otherwise.
   */
  lemma SweepRunsIff(w: Inputs, before: Stores, after: Stores, r: Report)
    requires TickStep(w, before, after, r)
    ensures var uncountable := w.retentionDays > 106_751_991_167 || w.now - w.retentionDays * 86_400 < w.earliest;
            (r.sweep.Disabled? <==> w.retentionDays == 0 || (!w.faults.openList && uncountable)) &&
            (r.sweep.SkippedUnreadable? <==> w.retentionDays > 0 && w.faults.openList) &&
            (w.retentionDays > 0 && !w.faults.openList && !uncountable && w.faults.purgeAt.None? ==> r.sweep.Swept?)
  {
    var swept: Rows :| TickThrough(w, before, swept, after, r);
  }

  /** A row is changed only when its experiment keeps content but is closed and its window over, and then it loses all of it. */
  lemma ChangedRowsAreExpired(w: Inputs, before: Stores, after: Stores, r: Report, id: int)
    requires TickStep(w, before, after, r)
    requires id in before.rows && id in after.rows && after.rows[id] != before.rows[id]
    ensures exists e <- w.atExpiry :: e.retains && !MayKeep(e, w.now) && before.rows[id].experiment == Some(e.id)
    ensures after.rows[id] == before.rows[id].(messages := CONTENT_NOT_STORED, response := None)
  {
    var swept: Rows :| TickThrough(w, before, swept, after, r);
    assert swept[id] == before.rows[id];
    var x := before.rows[id].experiment.value;
    assert x in Elapsed(w.atExpiry, w.now);
  }

  /** When a closed experiment's window is over, its content goes, and its notes with it, unless its own steps fail. */
  lemma ExpiredContentGoes(w: Inputs, before: Stores, after: Stores, r: Report, e: Experiment, id: int)
    requires TickStep(w, before, after, r) && !w.faults.closedList
    requires e in w.atExpiry && e.retains && !MayKeep(e, w.now) && e.id !in w.faults.redactions
    ensures id in after.rows && after.rows[id].experiment == Some(e.id) ==>
              after.rows[id].messages == CONTENT_NOT_STORED && after.rows[id].response == None
    ensures id in after.outcomes && after.outcomes[id].experiment == Some(e.id) && e.id !in w.faults.notes ==>
              after.outcomes[id].note == None
  {
    var swept: Rows :| TickThrough(w, before, swept, after, r);
    assert IsElapsed(e, w.now);
    assert e.id in Due(w);
    assert id in after.rows ==> id in swept;
  }

  /** The rows of an experiment that a tick changed, and its outcomes. */
  function ChangedRows(before: Rows, after: Rows, x: int): set<int> {
    set id | id in after && id in before && after[id].experiment == Some(x) && after[id] != before[id]
  }

  function ChangedOutcomes(before: Outcomes, after: Outcomes, x: int): set<int> {
    set id | id in after && id in before && after[id].experiment == Some(x) && after[id] != before[id]
  }

  lemma {:induction false} ExpiredTells(w: Inputs, rows: Rows, outcomes: Outcomes, due: seq<int>, k: nat)
    requires k < |ExpiredIn(w, rows, outcomes, due)|
    ensures var x := ExpiredIn(w, rows, outcomes, due)[k];
            x.experiment in due && x.experiment !in w.faults.redactions &&
            x.redacted == |ContentOf(rows, x.experiment)| &&
            x.notesCleared == if x.experiment in w.faults.notes then 0 else |NotesOf(outcomes, x.experiment)|
    decreases |due|
  {
    var init, last := due[..|due| - 1], due[|due| - 1];
    assert due == init + [last];
    if k < |ExpiredIn(w, rows, outcomes, init)| {
      ExpiredTells(w, rows, outcomes, init, k);
    }
  }

  lemma RedactionChanges(w: Inputs, before: Rows, swept: Rows, after: Rows, x: int)
    requires x in Due(w) && x !in w.faults.redactions
    requires forall id <- swept :: id in before && swept[id] == before[id]
    requires after == map id | id in swept :: RowAfter(w, Due(w), swept[id])
    ensures ContentOf(swept, x) == ChangedRows(before, after, x)
  {
    forall id ensures id in ContentOf(swept, x) <==> id in ChangedRows(before, after, x) {
      if id in swept && swept[id].experiment == Some(x) {
        assert after[id] == Redacted(swept[id]);
      }
    }
  }

  lemma ClearingChanges(w: Inputs, before: Outcomes, after: Outcomes, x: int)
    requires x in Due(w) && x !in w.faults.redactions
    requires after == map id | id in before :: OutcomeAfter(w, Due(w), before[id])
    ensures ChangedOutcomes(before, after, x) == if x in w.faults.notes then {} else NotesOf(before, x)
  {
    var notes := if x in w.faults.notes then {} else NotesOf(before, x);
    forall id ensures id in notes <==> id in ChangedOutcomes(before, after, x) {
      if id in before && before[id].experiment == Some(x) {
        assert after[id] == OutcomeAfter(w, Due(w), before[id]);
      }
    }
  }

  /** The report counts what the tick changed: the rows deleted, the rows redacted and the notes cleared. */
  lemma ReportCountsChanges(w: Inputs, before: Stores, after: Stores, r: Report, k: nat)
    requires TickStep(w, before, after, r)
    ensures r.sweep.Swept? ==> r.sweep.deleted == |before.rows| - |after.rows|
    ensures k < |r.expired| ==>
              r.expired[k].redacted == |ChangedRows(before.rows, after.rows, r.expired[k].experiment)| &&
              r.expired[k].notesCleared == |ChangedOutcomes(before.outcomes, after.outcomes, r.expired[k].experiment)|
  {
    var swept: Rows :| TickThrough(w, before, swept, after, r);
    assert after.rows.Keys == swept.Keys;
    assert |after.rows| == |after.rows.Keys| && |swept| == |swept.Keys|;
    if k < |r.expired| {
      ExpiredTells(w, swept, before.outcomes, Due(w), k);
      RedactionChanges(w, before.rows, swept, after.rows, r.expired[k].experiment);
      ClearingChanges(w, before.outcomes, after.outcomes, r.expired[k].experiment);
    }
  }

  /** With the list of open experiments unreadable, nothing is deleted. */
  lemma UnreadableListDeletesNothing(w: Inputs, before: Stores, after: Stores, r: Report)
    requires TickStep(w, before, after, r) && w.faults.openList
    ensures after.rows.Keys == before.rows.Keys
  {
    var swept: Rows :| TickThrough(w, before, swept, after, r);
    assert swept == before.rows;
  }

  /** A row of a retaining experiment that both halves see open is left exactly as it was. */
  lemma OpenRowsAreSafe(w: Inputs, before: Stores, after: Stores, r: Report, id: int, a: Experiment, b: Experiment)
    requires TickStep(w, before, after, r)
    requires id in before.rows && before.rows[id].experiment == Some(a.id)
    requires a in w.atSweep && a.retains && MayKeep(a, w.now)
    requires b in w.atExpiry && b.id == a.id && MayKeep(b, w.now) && ById(w.atExpiry)
    ensures id in after.rows && after.rows[id] == before.rows[id]
  {
    var swept: Rows :| TickThrough(w, before, swept, after, r);
    assert a.id in Kept(w);
    assert id in swept && swept[id] == before.rows[id];
    OpenIsNotDue(w.atExpiry, w.now, b);
  }

  lemma OpenIsNotDue(experiments: seq<Experiment>, now: Instant, open: Experiment)
    requires ById(experiments) && open in experiments && WindowOpen(open, now)
    ensures open.id !in Elapsed(experiments, now)
  {
    forall e <- experiments ensures e.id == open.id ==> !IsElapsed(e, now) {
      if e.id == open.id {
        SameIdSameExperiment(experiments, e, open);
      }
    }
  }

  lemma SameIdSameExperiment(experiments: seq<Experiment>, a: Experiment, b: Experiment)
    requires ById(experiments) && a in experiments && b in experiments && a.id == b.id
    ensures a == b
  {
    var i :| 0 <= i < |experiments| && experiments[i] == a;
    var j :| 0 <= j < |experiments| && experiments[j] == b;
    assert i < j ==> experiments[i].id < experiments[j].id;
    assert j < i ==> experiments[j].id < experiments[i].id;
  }

  /** A note goes only in a tick that left its experiment without content. */
  lemma NotesGoAfterContent(w: Inputs, before: Stores, after: Stores, r: Report, note: int, row: int)
    requires TickStep(w, before, after, r)
    requires note in before.outcomes && note in after.outcomes && after.outcomes[note] != before.outcomes[note]
    ensures after.outcomes[note] == before.outcomes[note].(note := None)
    ensures var x := before.outcomes[note].experiment;
            x.Some? && x.value in Due(w) && x.value !in w.faults.redactions &&
            (row in after.rows && after.rows[row].experiment == x ==> !HoldsContent(after.rows[row]))
  {
    var swept: Rows :| TickThrough(w, before, swept, after, r);
    assert row in after.rows ==> row in swept;
  }

  /** The experiments of a report, in order. */
  function Handled(expired: seq<Expired>): (ids: seq<int>)
    decreases |expired|
  {
    if expired == [] then [] else Handled(expired[..|expired| - 1]) + [expired[|expired| - 1].experiment]
  }

  lemma HandledOfOneMore(expired: seq<Expired>, x: Expired)
    ensures Handled(expired + [x]) == Handled(expired) + [x.experiment]
  {
    Last(expired, x);
  }

  lemma InOneMore(ids: seq<int>, x: int, id: int)
    ensures id in ids + [x] <==> id in ids || id == x
  {
  }

  lemma {:induction false} HandledIffDue(w: Inputs, rows: Rows, outcomes: Outcomes, due: seq<int>, id: int)
    ensures id in Handled(ExpiredIn(w, rows, outcomes, due)) <==> id in due && id !in w.faults.redactions
    decreases |due|
  {
    if due == [] {
      assert ExpiredIn(w, rows, outcomes, due) == [];
    } else {
      var init, last := due[..|due| - 1], due[|due| - 1];
      HandledIffDue(w, rows, outcomes, init, id);
      assert due == init + [last];
      InOneMore(init, last, id);
      var before := ExpiredIn(w, rows, outcomes, init);
      if last in w.faults.redactions {
        Empty(before);
      } else {
        var x := Expired(last, |ContentOf(rows, last)|, if last in w.faults.notes then 0 else |NotesOf(outcomes, last)|);
        HandledOfOneMore(before, x);
        InOneMore(Handled(before), last, id);
      }
    }
  }

  predicate Fails(w: Inputs, id: int) {
    id in w.faults.redactions || id in w.faults.notes
  }

  lemma {:induction false} FailsIffDue(w: Inputs, due: seq<int>, id: int)
    ensures id in FailuresIn(w, due) <==> id in due && Fails(w, id)
    decreases |due|
  {
    if due == [] {
      assert FailuresIn(w, due) == [];
    } else {
      var init, last := due[..|due| - 1], due[|due| - 1];
      FailsIffDue(w, init, id);
      assert due == init + [last];
      InOneMore(init, last, id);
      if Fails(w, last) {
        InOneMore(FailuresIn(w, init), last, id);
      } else {
        Empty(FailuresIn(w, init));
      }
    }
  }

  /** Every elapsed experiment is handled and every failure reported, whatever happens to the others. */
  lemma EveryDueIsHandled(w: Inputs, before: Stores, after: Stores, r: Report, id: int)
    requires TickStep(w, before, after, r)
    ensures id in Handled(r.expired) <==> id in Due(w) && id !in w.faults.redactions
    ensures !w.faults.closedList ==> (id in r.failures <==> id in Due(w) && Fails(w, id))
    ensures w.faults.closedList ==> r.expired == [] && r.failures == [0]
  {
    var swept: Rows :| TickThrough(w, before, swept, after, r);
    HandledIffDue(w, swept, before.outcomes, Due(w), id);
    FailsIffDue(w, Due(w), id);
  }

  /** In id order, and therefore without repetition. */
  predicate Ascending(ids: seq<int>) {
    forall i, j :: 0 <= i < j < |ids| ==> ids[i] < ids[j]
  }

  lemma AscendingOneMore(ids: seq<int>, x: int)
    requires Ascending(ids) && forall id <- ids :: id < x
    ensures Ascending(ids + [x])
  {
    forall i | 0 <= i < |ids| ensures ids[i] < x {
      assert ids[i] in ids;
    }
  }

  lemma BelowLast(ids: seq<int>, part: seq<int>)
    requires ids != [] && Ascending(ids) && forall id <- part :: id in ids[..|ids| - 1]
    ensures Ascending(ids[..|ids| - 1]) && forall id <- part :: id < ids[|ids| - 1]
  {
    var init, last := ids[..|ids| - 1], ids[|ids| - 1];
    forall id <- part ensures id < last {
      var k :| 0 <= k < |init| && init[k] == id;
      assert ids[k] == id;
    }
  }

  lemma {:induction false} FailuresAscend(w: Inputs, due: seq<int>)
    requires Ascending(due)
    ensures Ascending(FailuresIn(w, due))
    decreases |due|
  {
    if due == [] {
      assert FailuresIn(w, due) == [];
    } else {
      var init, last := due[..|due| - 1], due[|due| - 1];
      forall id <- FailuresIn(w, init) ensures id in init {
        FailsIffDue(w, init, id);
      }
      BelowLast(due, FailuresIn(w, init));
      FailuresAscend(w, init);
      if Fails(w, last) {
        AscendingOneMore(FailuresIn(w, init), last);
      } else {
        Empty(FailuresIn(w, init));
      }
    }
  }

  lemma {:induction false} HandledAscend(w: Inputs, rows: Rows, outcomes: Outcomes, due: seq<int>)
    requires Ascending(due)
    ensures Ascending(Handled(ExpiredIn(w, rows, outcomes, due)))
    decreases |due|
  {
    if due == [] {
      assert ExpiredIn(w, rows, outcomes, due) == [];
    } else {
      var init, last := due[..|due| - 1], due[|due| - 1];
      var before := ExpiredIn(w, rows, outcomes, init);
      forall id <- Handled(before) ensures id in init {
        HandledIffDue(w, rows, outcomes, init, id);
      }
      BelowLast(due, Handled(before));
      HandledAscend(w, rows, outcomes, init);
      if last in w.faults.redactions {
        Empty(before);
      } else {
        var x := Expired(last, |ContentOf(rows, last)|, if last in w.faults.notes then 0 else |NotesOf(outcomes, last)|);
        HandledOfOneMore(before, x);
        AscendingOneMore(Handled(before), last);
      }
    }
  }

  lemma {:induction false} ElapsedAscend(experiments: seq<Experiment>, now: Instant)
    requires ById(experiments)
    ensures Ascending(Elapsed(experiments, now))
    decreases |experiments|
  {
    if experiments == [] {
      assert Elapsed(experiments, now) == [];
    } else {
      var n := |experiments| - 1;
      var before := Elapsed(experiments[..n], now);
      ElapsedAscend(experiments[..n], now);
      if IsElapsed(experiments[n], now) {
        forall id <- before ensures id < experiments[n].id {
          var e :| e in experiments[..n] && e.id == id;
        }
        AscendingOneMore(before, experiments[n].id);
      } else {
        Empty(before);
      }
    }
  }

  /** A tick reports in id order, so that nobody is listed twice, among the failures either. */
  lemma ReportIsInIdOrder(w: Inputs, before: Stores, after: Stores, r: Report)
    requires TickStep(w, before, after, r) && ById(w.atExpiry)
    ensures Ascending(Handled(r.expired)) && Ascending(r.failures)
  {
    var swept: Rows :| TickThrough(w, before, swept, after, r);
    ElapsedAscend(w.atExpiry, w.now);
    FailuresAscend(w, Due(w));
    HandledAscend(w, swept, before.outcomes, Due(w));
  }

  /** No experiment is listed among the failures of a tick twice. */
  lemma FailuresNameNobodyTwice(w: Inputs, before: Stores, after: Stores, r: Report, i: nat, j: nat)
    requires TickStep(w, before, after, r) && ById(w.atExpiry)
    ensures i < j < |r.failures| ==> r.failures[i] != r.failures[j]
  {
    ReportIsInIdOrder(w, before, after, r);
  }

  // ---------------------------------------------------------------- a second tick

  /** The content and notes that are due are gone. */
  ghost predicate Settled(w: Inputs, s: Stores) {
    && (forall id <- s.rows :: Redacts(w, Due(w), s.rows[id].experiment) ==> !HoldsContent(s.rows[id]))
    && (forall id <- s.outcomes :: Clears(w, Due(w), s.outcomes[id].experiment) ==> s.outcomes[id].note.None?)
  }

  lemma SettledStays(w: Inputs, s: Stores)
    requires Settled(w, s)
    ensures Expiry(w, Due(w), s) == s
  {
    var after := Expiry(w, Due(w), s);
    assert forall x <- s.rows :: x in after.rows && after.rows[x] == s.rows[x];
    assert forall x <- s.outcomes :: x in after.outcomes && after.outcomes[x] == s.outcomes[x];
  }

  lemma {:induction false} NothingLeft(w: Inputs, s: Stores, due: seq<int>)
    requires w.faults == NO_FAULTS && Settled(w, s) && forall id <- due :: id in Due(w)
    ensures forall k :: 0 <= k < |ExpiredIn(w, s.rows, s.outcomes, due)| ==>
              ExpiredIn(w, s.rows, s.outcomes, due)[k].redacted == 0 &&
              ExpiredIn(w, s.rows, s.outcomes, due)[k].notesCleared == 0
    ensures FailuresIn(w, due) == []
    decreases |due|
  {
    if due != [] {
      var last := due[|due| - 1];
      NothingLeft(w, s, due[..|due| - 1]);
      assert last in due;
      assert Redacts(w, Due(w), Some(last)) && Clears(w, Due(w), Some(last));
      assert forall x :: x !in ContentOf(s.rows, last);
      assert forall x :: x !in NotesOf(s.outcomes, last);
      assert ContentOf(s.rows, last) == {} && NotesOf(s.outcomes, last) == {};
    }
  }

  lemma NothingMoreToSweep(w: Inputs, first: Rows, mid: Rows, later: Rows, last: Rows, s1: SweepOutcome, s2: SweepOutcome)
    requires w.faults == NO_FAULTS
    requires SweepStep(w, first, mid, s1) && SweepStep(w, later, last, s2)
    requires later.Keys == mid.Keys
    requires forall id <- later :: later[id].createdAt == mid[id].createdAt && later[id].experiment == mid[id].experiment
    ensures last == later
    ensures s2.Swept? ==> s2.deleted == 0
  {
    if s2.Swept? {
      assert forall id <- later :: Doomed(later[id], Cutoff(w), Kept(w)) == Doomed(mid[id], Cutoff(w), Kept(w));
      assert forall id :: id in last <==> id in later;
      assert forall id <- later :: last[id] == later[id];
      assert last == later;
    }
  }

  lemma ExpirySettles(w: Inputs, before: Stores, swept: Rows, after: Stores, r: Report)
    requires w.faults == NO_FAULTS && TickThrough(w, before, swept, after, r)
    ensures Settled(w, after) && after.rows.Keys == swept.Keys
    ensures forall id <- after.rows :: after.rows[id].createdAt == swept[id].createdAt && after.rows[id].experiment == swept[id].experiment
  {
    assert forall id <- after.rows :: id in swept && after.rows[id] == RowAfter(w, Due(w), swept[id]);
    assert forall id :: id in after.rows <==> id in swept;
  }

  /** A second tick at the same time, with nothing failing in either, changes nothing and finds nothing to do. */
  lemma SecondTickChangesNothing(w: Inputs, s0: Stores, s1: Stores, s2: Stores, r1: Report, r2: Report)
    requires w.faults == NO_FAULTS
    requires TickStep(w, s0, s1, r1) && TickStep(w, s1, s2, r2)
    ensures s2 == s1
    ensures r2.sweep.Swept? ==> r2.sweep.deleted == 0
    ensures r2.failures == [] && forall k :: 0 <= k < |r2.expired| ==> r2.expired[k].redacted == 0 && r2.expired[k].notesCleared == 0
  {
    var swept1 :| TickThrough(w, s0, swept1, s1, r1);
    var swept2 :| TickThrough(w, s1, swept2, s2, r2);
    ExpirySettles(w, s0, swept1, s1, r1);
    NothingMoreToSweep(w, s0.rows, swept1, s1.rows, swept2, r1.sweep, r2.sweep);
    SettledStays(w, s1);
    NothingLeft(w, s1, Due(w));
  }

  // ---------------------------------------------------------------- runs

  type Experiments = map<int, Experiment>

  datatype Database = Database(stores: Stores, experiments: Experiments)

  /** Experiments are created, and active ones are closed; nothing else about them changes. */
  ghost predicate Evolves(before: Experiments, after: Experiments) {
    && before.Keys <= after.Keys
    && (forall id <- before :: before[id].id == id)
    && (forall id <- before :: after[id] == before[id] ||
          (before[id].active && after[id] == before[id].(active := after[id].active, closedAt := after[id].closedAt)))
  }

  /** The list as a query returns it. */
  ghost predicate Lists(list: seq<Experiment>, experiments: Experiments) {
    && ById(list)
    && (forall id <- experiments :: experiments[id] in list)
    && (forall e <- list :: e.id in experiments && experiments[e.id] == e)
  }

  /** A tick, with the experiments as its two halves found them; or any other traffic. */
  datatype Happening = Tick(w: Inputs, r: Report, atSweep: Experiments, atExpiry: Experiments) | Traffic

  ghost predicate DbStep(d: Database, h: Happening, d': Database) {
    match h
    case Traffic =>
      Evolves(d.experiments, d'.experiments) &&
      forall id <- d.stores.rows :: id in d'.stores.rows && d'.stores.rows[id] == d.stores.rows[id]
    case Tick(w, r, atSweep, atExpiry) =>
      TickStep(w, d.stores, d'.stores, r) && Lists(w.atSweep, atSweep) && Lists(w.atExpiry, atExpiry) &&
      Evolves(d.experiments, atSweep) && Evolves(atSweep, atExpiry) && Evolves(atExpiry, d'.experiments)
  }

  datatype History = History(states: seq<Database>, happenings: seq<Happening>)

  ghost predicate IsHistory(h: History) {
    |h.states| == |h.happenings| + 1 &&
    forall k :: 0 <= k < |h.happenings| ==> DbStep(h.states[k], h.happenings[k], h.states[k + 1])
  }

  lemma EvolvesOn(a: Experiments, b: Experiments, c: Experiments)
    requires Evolves(a, b) && Evolves(b, c)
    ensures Evolves(a, c)
  {
  }

  lemma StepEvolves(d: Database, h: Happening, d': Database)
    requires DbStep(d, h, d')
    ensures Evolves(d.experiments, d'.experiments)
  {
    if h.Tick? {
      EvolvesOn(d.experiments, h.atSweep, h.atExpiry);
      EvolvesOn(d.experiments, h.atExpiry, d'.experiments);
    }
  }

  lemma {:induction false} ExperimentsEvolve(h: History, i: nat, j: nat)
    requires IsHistory(h) && i < j < |h.states|
    ensures Evolves(h.states[i].experiments, h.states[j].experiments)
  {
    var d, d' := h.states[j - 1], h.states[j];
    StepEvolves(d, h.happenings[j - 1], d');
    if i < j - 1 {
      ExperimentsEvolve(h, i, j - 1);
      EvolvesOn(h.states[i].experiments, d.experiments, d'.experiments);
    }
  }

  /** A window that is open in the end was open all the time before. */
  lemma OpenBefore(before: Experiments, after: Experiments, id: int, now: Instant, later: Instant)
    requires Evolves(before, after) && id in before && now <= later
    requires MayKeep(after[id], later)
    ensures MayKeep(before[id], now)
  {
  }

  /**
   Through every history of ticks, failures and traffic, a row of a retaining
   experiment is as it was for as long as the experiment's window is open.
   */
  lemma {:induction false} EvidenceSurvives(h: History, n: nat, now: Instant, row: int, x: int)
    requires IsHistory(h) && n < |h.states|
    requires forall k :: 0 <= k < n && h.happenings[k].Tick? ==> h.happenings[k].w.now <= now
    requires row in h.states[0].stores.rows && h.states[0].stores.rows[row].experiment == Some(x)
    requires x in h.states[0].experiments && h.states[0].experiments[x].retains
    requires x in h.states[n].experiments && MayKeep(h.states[n].experiments[x], now)
    ensures row in h.states[n].stores.rows && h.states[n].stores.rows[row] == h.states[0].stores.rows[row]
  {
    if n > 0 {
      var d, d' := h.states[n - 1], h.states[n];
      if n > 1 {
        ExperimentsEvolve(h, 0, n - 1);
      }
      assert x in d.experiments && d.experiments[x].retains;
      ExperimentsEvolve(h, n - 1, n);
      OpenBefore(d.experiments, d'.experiments, x, now, now);
      EvidenceSurvives(h, n - 1, now, row, x);
      assert DbStep(d, h.happenings[n - 1], d');
      match h.happenings[n - 1] {
        case Traffic =>
        case Tick(w, r, atSweep, atExpiry) =>
          EvolvesOn(atSweep, atExpiry, d'.experiments);
          OpenBefore(atSweep, d'.experiments, x, w.now, now);
          OpenBefore(atExpiry, d'.experiments, x, w.now, now);
          assert d.experiments[x].id == x && atSweep[x].id == x && atExpiry[x].id == x;
          OpenRowsAreSafe(w, d.stores, d'.stores, r, row, atSweep[x], atExpiry[x]);
      }
    }
  }

  /** What is left of a row that was there all the time keeps its age. */
  lemma {:induction false} AgeStays(h: History, n: nat, row: int)
    requires IsHistory(h) && n < |h.states|
    requires forall k :: 0 <= k <= n ==> row in h.states[k].stores.rows
    ensures h.states[n].stores.rows[row].createdAt == h.states[0].stores.rows[row].createdAt
  {
    if n > 0 {
      AgeStays(h, n - 1, row);
      var d, d' := h.states[n - 1], h.states[n];
      assert DbStep(d, h.happenings[n - 1], d');
      if h.happenings[n - 1].Tick? {
        StampsSurvive(h.happenings[n - 1].w, d.stores, d'.stores, h.happenings[n - 1].r, row);
      }
    }
  }

  /** A row that is gone was taken by a tick, under a policy whose days had passed since the row was written. */
  lemma {:induction false} GoneRowsWereOld(h: History, n: nat, row: int) returns (k: nat)
    requires IsHistory(h) && n < |h.states|
    requires row in h.states[0].stores.rows && row !in h.states[n].stores.rows
    ensures k < n && h.happenings[k].Tick? && h.happenings[k].w.retentionDays > 0
    ensures h.states[0].stores.rows[row].createdAt + h.happenings[k].w.retentionDays * 86_400 < h.happenings[k].w.now
  {
    if m: nat :| m < n && row !in h.states[m].stores.rows {
      k := GoneRowsWereOld(h, m, row);
    } else {
      k := n - 1;
      AgeStays(h, k, row);
      var d, d' := h.states[k], h.states[n];
      assert DbStep(d, h.happenings[k], d');
      if h.happenings[k].Tick? {
        DeletedRowsAreOld(h.happenings[k].w, d.stores, d'.stores, h.happenings[k].r, row);
      }
    }
  }
}
