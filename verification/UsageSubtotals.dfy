/**
 What a reader of the usage table finds in it: the subtotals with the bucket they
 stand in are the runs of the rows by bucket and user.
 */
module UsageSubtotals {
  import opened Common
  import opened UsageTable

  // ---------------------------------------------------------------- the subtotals as they are read

  /** A subtotal with the bucket it stands in. */
  datatype Cell = Cell(key: Option<string>, user: string, sum: Totals)

  /** The bucket that lines printed next stand in. */
  function LastKey(lines: seq<Line>): Option<string>
    decreases |lines|
  {
    if lines == [] then None
    else if lines[|lines| - 1].Header? then lines[|lines| - 1].key
    else LastKey(lines[..|lines| - 1])
  }

  function CellsIn(lines: seq<Line>): seq<Cell>
    decreases |lines|
  {
    if lines == [] then []
    else
      var init, last := lines[..|lines| - 1], lines[|lines| - 1];
      CellsIn(init) + if last.Subtotal? then [Cell(LastKey(init), last.user, last.sum)] else []
  }

  predicate Named(rows: seq<Row>) {
    forall i :: 0 <= i < |rows| ==> rows[i].user.Some?
  }

  /** Rows of one user in one bucket. */
  predicate Mates(a: Row, b: Row) {
    a.bucket == b.bucket && a.user == b.user
  }

  /** One more row: it joins the last cell, or starts its own. */
  function Grown(cells: seq<Cell>, joins: bool, r: Row): (grown: seq<Cell>)
    requires r.user.Some? && (joins ==> cells != [])
  {
    if joins then
      var m := |cells| - 1;
      cells[..m] + [cells[m].(sum := Plus(cells[m].sum, r.amounts))]
    else cells + [Cell(r.bucket, r.user.value, r.amounts)]
  }

  predicate Joins(rows: seq<Row>, n: nat)
    requires n < |rows|
  {
    n > 0 && Mates(rows[n - 1], rows[n])
  }

  /** One cell for each maximal run of mates. */
  function Runs(rows: seq<Row>): (runs: seq<Cell>)
    requires Named(rows)
    ensures rows != [] ==>
              runs != [] && runs[|runs| - 1].key == rows[|rows| - 1].bucket &&
              runs[|runs| - 1].user == rows[|rows| - 1].user.value
    ensures rows == [] ==> runs == []
    decreases |rows|
  {
    if rows == [] then []
    else
      var n := |rows| - 1;
      Grown(Runs(rows[..n]), Joins(rows, n), rows[n])
  }

  lemma GrownBehind(front: seq<Cell>, cells: seq<Cell>, joins: bool, r: Row)
    requires r.user.Some? && (joins ==> cells != [])
    ensures Grown(front + cells, joins, r) == front + Grown(cells, joins, r)
  {
    if joins {
      var m := |cells| - 1;
      assert (front + cells)[..|front| + m] == front + cells[..m];
      Reassociate(front, cells[..m], [cells[m].(sum := Plus(cells[m].sum, r.amounts))]);
    } else {
      Reassociate(front, cells, [Cell(r.bucket, r.user.value, r.amounts)]);
    }
  }

  lemma InitOfSum(a: seq<Row>, b: seq<Row>)
    requires b != []
    ensures (a + b)[..|a + b| - 1] == a + b[..|b| - 1] && (a + b)[|a + b| - 1] == b[|b| - 1]
    ensures |a + b| > 1 ==> (a + b)[|a + b| - 2] == if |b| > 1 then b[|b| - 2] else a[|a| - 1]
  {
  }

  /** Runs end where rows that are no mates meet. */
  lemma {:induction false} RunsAppend(a: seq<Row>, b: seq<Row>)
    requires Named(a) && Named(b)
    requires a != [] && b != [] ==> !Mates(a[|a| - 1], b[0])
    ensures Runs(a + b) == Runs(a) + Runs(b)
    decreases |b|
  {
    if b == [] {
      Empty(a);
      Empty(Runs(a));
    } else {
      var n := |b| - 1;
      InitOfSum(a, b);
      RunsAppend(a, b[..n]);
      assert Joins(a + b, |a| + n) == Joins(b, n);
      GrownBehind(Runs(a), Runs(b[..n]), Joins(b, n), b[n]);
    }
  }

  // ---------------------------------------------------------------- what is printed

  /** The cells printed, and the one still being added up. */
  function AllCells(p: Pen): seq<Cell> {
    CellsIn(p.lines) + if p.user.Some? then [Cell(LastKey(p.lines), p.user.value, p.own)] else []
  }

  lemma CellsOfOneMore(lines: seq<Line>, l: Line)
    ensures CellsIn(lines + [l]) == CellsIn(lines) + if l.Subtotal? then [Cell(LastKey(lines), l.user, l.sum)] else []
    ensures LastKey(lines + [l]) == if l.Header? then l.key else LastKey(lines)
  {
    Last(lines, l);
  }

  lemma RowGrowsCells(p: Pen, r: Row)
    requires r.user.Some? && r.bucket == LastKey(p.lines) && (p.user.None? ==> p.own == ZERO)
    ensures AllCells(PrintRow(p, r, true)) == Grown(AllCells(p), p.user == r.user, r)
    ensures PrintRow(p, r, true).user == r.user && LastKey(PrintRow(p, r, true).lines) == LastKey(p.lines)
  {
    PlusIsAdditive(ZERO, r.amounts, ZERO);
    if p.user.Some? && p.user != r.user {
      CellsOfOneMore(p.lines, Subtotal(p.user.value, p.own));
      CellsOfOneMore(p.lines + [Subtotal(p.user.value, p.own)], Detail(r));
      Empty(AllCells(p));
    } else {
      CellsOfOneMore(p.lines, Detail(r));
      Empty(CellsIn(p.lines));
      if p.user.Some? {
        Last(CellsIn(p.lines), Cell(LastKey(p.lines), p.user.value, p.own));
      }
    }
  }

  /** All rows have the key of the bucket that is being printed. */
  predicate Under(rows: seq<Row>, key: Option<string>) {
    forall i :: 0 <= i < |rows| ==> rows[i].bucket == key
  }

  lemma JoinsUnder(rows: seq<Row>, key: Option<string>, user: Option<string>)
    requires rows != [] && Named(rows) && Under(rows, key)
    requires var n := |rows| - 1; user == if n == 0 then None else rows[n - 1].user
    ensures Joins(rows, |rows| - 1) <==> user == rows[|rows| - 1].user
  {
  }

  /** The subtotals printed and the run being added up are the runs of the rows. */
  lemma {:induction false} RowsPrintRuns(p: Pen, rows: seq<Row>)
    requires Named(rows) && Under(rows, LastKey(p.lines)) && p.user.None? && p.own == ZERO
    ensures var p' := PrintRows(p, rows, true);
            AllCells(p') == CellsIn(p.lines) + Runs(rows) && LastKey(p'.lines) == LastKey(p.lines) &&
            p'.user == (if rows == [] then None else rows[|rows| - 1].user) && (rows == [] ==> p'.own == ZERO)
    decreases |rows|
  {
    if rows == [] {
      Empty(CellsIn(p.lines));
    } else {
      var n := |rows| - 1;
      var before := PrintRows(p, rows[..n], true);
      RowsPrintRuns(p, rows[..n]);
      RowGrowsCells(before, rows[n]);
      JoinsUnder(rows, LastKey(p.lines), before.user);
      GrownBehind(CellsIn(p.lines), Runs(rows[..n]), Joins(rows, n), rows[n]);
    }
  }

  /** A bucket with user names prints one subtotal for each run of a user, in order. */
  lemma BucketPrintsRuns(p: Pen, key: Option<string>, rows: seq<Row>)
    requires Named(rows) && Under(rows, key)
    ensures CellsIn(PrintBucket(p, key, rows, true).lines) == CellsIn(p.lines) + Runs(rows)
  {
    var start := Pen(p.lines + [Header(key)], None, ZERO, p.grand);
    CellsOfOneMore(p.lines, Header(key));
    Empty(CellsIn(p.lines));
    RowsPrintRuns(start, rows);
    var p1 := PrintRows(start, rows, true);
    if p1.user.Some? {
      CellsOfOneMore(p1.lines, Subtotal(p1.user.value, p1.own));
    } else {
      Empty(CellsIn(p1.lines));
    }
  }

  lemma PickedAreNamed(rows: seq<Row>, indices: seq<nat>)
    requires Named(rows) && Fits(rows, indices)
    ensures Named(Picked(rows, indices))
  {
  }

  /** The rows of a bucket, and the last row before it. */
  lemma BucketStandsApart(rows: seq<Row>, buckets: seq<Bucket>)
    requires buckets != [] && Keyed(rows, buckets)
    ensures var n := |buckets| - 1;
            Fits(rows, buckets[n].indices) && Picked(rows, buckets[n].indices) != [] &&
            Under(Picked(rows, buckets[n].indices), buckets[n].key) &&
            Keyed(rows, buckets[..n]) && (n > 0 ==> buckets[n - 1].key != buckets[n].key)
  {
  }

  lemma {:induction false} ListedEnds(rows: seq<Row>, buckets: seq<Bucket>)
    requires Keyed(rows, buckets)
    ensures InRange(rows, buckets) && Fits(rows, Listed(buckets))
    ensures buckets != [] ==>
              var all := Picked(rows, Listed(buckets));
              all != [] && all[|all| - 1].bucket == buckets[|buckets| - 1].key
    decreases |buckets|
  {
    if buckets == [] {
      assert Listed(buckets) == [];
    } else {
      var n := |buckets| - 1;
      BucketStandsApart(rows, buckets);
      ListedEnds(rows, buckets[..n]);
      PickedAppend(rows, Listed(buckets[..n]), buckets[n].indices);
    }
  }

  /** Where the last bucket begins, a run begins. */
  lemma LastBucketRuns(rows: seq<Row>, buckets: seq<Bucket>)
    requires buckets != [] && Keyed(rows, buckets)
    ensures var n := |buckets| - 1;
            Fits(rows, Listed(buckets[..n])) && Fits(rows, buckets[n].indices) && Fits(rows, Listed(buckets)) &&
            var front, here := Picked(rows, Listed(buckets[..n])), Picked(rows, buckets[n].indices);
            Picked(rows, Listed(buckets)) == front + here && here != [] && Under(here, buckets[n].key) &&
            (front != [] ==> front[|front| - 1].bucket != here[0].bucket)
  {
    var n := |buckets| - 1;
    BucketStandsApart(rows, buckets);
    ListedEnds(rows, buckets[..n]);
    PickedAppend(rows, Listed(buckets[..n]), buckets[n].indices);
    if n == 0 {
      assert Listed(buckets[..n]) == [];
    }
  }

  lemma {:induction false} BucketsPrintRuns(rows: seq<Row>, buckets: seq<Bucket>)
    requires Named(rows) && Keyed(rows, buckets) && InRange(rows, buckets) && Fits(rows, Listed(buckets))
    requires Named(Picked(rows, Listed(buckets)))
    ensures CellsIn(PrintBuckets(rows, buckets, true).lines) == Runs(Picked(rows, Listed(buckets)))
    decreases |buckets|
  {
    if buckets == [] {
      assert PrintBuckets(rows, buckets, true).lines == [] && Picked(rows, Listed(buckets)) == [];
    } else {
      var n := |buckets| - 1;
      LastBucketRuns(rows, buckets);
      BucketStandsApart(rows, buckets);
      var front, here := Picked(rows, Listed(buckets[..n])), Picked(rows, buckets[n].indices);
      PickedAreNamed(rows, Listed(buckets[..n]));
      PickedAreNamed(rows, buckets[n].indices);
      BucketsPrintRuns(rows, buckets[..n]);
      BucketPrintsRuns(PrintBuckets(rows, buckets[..n], true), buckets[n].key, here);
      RunsAppend(front, here);
    }
  }

  /** The subtotals of the table are the runs of the rows by bucket and user, in order. */
  lemma TablePrintsRuns(rows: seq<Row>, buckets: seq<Bucket>)
    requires Named(rows) && Partitions(rows, buckets)
    ensures InRange(rows, buckets) && CellsIn(PrintBuckets(rows, buckets, true).lines) == Runs(rows)
  {
    ListedEnds(rows, buckets);
    assert Picked(rows, UpTo(|rows|)) == rows;
    BucketsPrintRuns(rows, buckets);
  }

  // ---------------------------------------------------------------- one subtotal for each bucket and user

  /** The rows of one user in one bucket stand together. */
  ghost predicate Contiguous(rows: seq<Row>) {
    forall i, j, k :: 0 <= i < j < k < |rows| && Mates(rows[i], rows[k]) ==> Mates(rows[i], rows[j])
  }

  /** No bucket and user has two cells. */
  ghost predicate Distinct(cells: seq<Cell>) {
    forall i, j :: 0 <= i < j < |cells| ==> cells[i].key != cells[j].key || cells[i].user != cells[j].user
  }

  predicate IsOf(r: Row, key: Option<string>, user: string) {
    r.bucket == key && r.user == Some(user)
  }

  /** All rows of one user in one bucket, added up. */
  function SumOf(rows: seq<Row>, key: Option<string>, user: string): Totals
    decreases |rows|
  {
    if rows == [] then ZERO
    else
      var before, last := SumOf(rows[..|rows| - 1], key, user), rows[|rows| - 1];
      if IsOf(last, key, user) then Plus(before, last.amounts) else before
  }

  predicate Occurs(rows: seq<Row>, key: Option<string>, user: string) {
    exists i | 0 <= i < |rows| :: IsOf(rows[i], key, user)
  }

  /** No row comes back to mates that an earlier row left. */
  predicate NeverReturns(rows: seq<Row>)
    requires Named(rows)
    decreases |rows|
  {
    rows == [] ||
    (var n := |rows| - 1;
     NeverReturns(rows[..n]) && (Joins(rows, n) || !Occurs(rows[..n], rows[n].bucket, rows[n].user.value)))
  }

  predicate IsFor(c: Cell, key: Option<string>, user: string) {
    c.key == key && c.user == user
  }

  predicate HasCell(cells: seq<Cell>, key: Option<string>, user: string) {
    exists i | 0 <= i < |cells| :: IsFor(cells[i], key, user)
  }

  /** The runs hold exactly the buckets and users that occur. */
  lemma {:induction false} RunsHoldUsers(rows: seq<Row>, key: Option<string>, user: string)
    requires Named(rows)
    ensures HasCell(Runs(rows), key, user) <==> Occurs(rows, key, user)
    decreases |rows|
  {
    if rows == [] {
      assert Runs(rows) == [];
    } else {
      var n := |rows| - 1;
      RunsHoldUsers(rows[..n], key, user);
      GrownHolds(Runs(rows[..n]), Joins(rows, n), rows[n], key, user);
      OccursInMore(rows, n, key, user);
    }
  }

  lemma OccursInMore(rows: seq<Row>, n: nat, key: Option<string>, user: string)
    requires |rows| == n + 1
    ensures Occurs(rows, key, user) <==> Occurs(rows[..n], key, user) || IsOf(rows[n], key, user)
  {
    if i :| 0 <= i < n && IsOf(rows[..n][i], key, user) {
      assert IsOf(rows[i], key, user);
    }
    if i :| 0 <= i < n && IsOf(rows[i], key, user) {
      assert IsOf(rows[..n][i], key, user);
    }
  }

  /** The row belongs to the last cell. */
  predicate Fitting(cells: seq<Cell>, joins: bool, r: Row) {
    r.user.Some? && (joins ==> cells != [] && IsFor(cells[|cells| - 1], r.bucket, r.user.value))
  }

  lemma GrownHolds(cells: seq<Cell>, joins: bool, r: Row, key: Option<string>, user: string)
    requires Fitting(cells, joins, r)
    ensures HasCell(Grown(cells, joins, r), key, user) <==> HasCell(cells, key, user) || IsOf(r, key, user)
  {
    var grown := Grown(cells, joins, r);
    assert forall i :: 0 <= i < |cells| ==> IsFor(grown[i], key, user) == IsFor(cells[i], key, user);
    assert !joins ==> IsFor(grown[|cells|], key, user) == IsOf(r, key, user);
    assert joins ==> IsFor(grown[|cells| - 1], key, user) == IsOf(r, key, user);
  }

  lemma {:induction false} ContiguousNeverReturns(rows: seq<Row>)
    requires Named(rows)
    ensures Contiguous(rows) <==> NeverReturns(rows)
    decreases |rows|
  {
    if rows == [] {
      assert Contiguous(rows);
    } else {
      ContiguousNeverReturns(rows[..|rows| - 1]);
      ContiguousInMore(rows, |rows| - 1);
    }
  }

  lemma ContiguousInMore(rows: seq<Row>, n: nat)
    requires |rows| == n + 1 && Named(rows)
    ensures Contiguous(rows) <==>
            Contiguous(rows[..n]) && (Joins(rows, n) || !Occurs(rows[..n], rows[n].bucket, rows[n].user.value))
  {
    var init, r := rows[..n], rows[n];
    assert forall i :: 0 <= i < n ==> init[i] == rows[i];
    if Contiguous(rows) && Occurs(init, r.bucket, r.user.value) {
      var i :| 0 <= i < n && IsOf(init[i], r.bucket, r.user.value);
      assert Mates(rows[i], r);
      assert i < n - 1 ==> Mates(rows[i], rows[n - 1]);
    }
    if Contiguous(init) && Joins(rows, n) {
      forall i, j | 0 <= i < j < n && Mates(rows[i], r) ensures Mates(rows[i], rows[j]) {
        assert j < n - 1 ==> Mates(init[i], init[n - 1]) && Mates(init[i], init[j]);
      }
    }
    if !Occurs(init, r.bucket, r.user.value) {
      forall i | 0 <= i < n ensures !Mates(rows[i], r) {
        assert !IsOf(init[i], r.bucket, r.user.value);
      }
    }
  }

  /** No bucket and user has two runs exactly when no row comes back to one. */
  lemma {:induction false} RunsDistinct(rows: seq<Row>)
    requires Named(rows)
    ensures Distinct(Runs(rows)) <==> NeverReturns(rows)
    decreases |rows|
  {
    if rows == [] {
      assert Runs(rows) == [];
    } else {
      var n := |rows| - 1;
      RunsDistinct(rows[..n]);
      RunsHoldUsers(rows[..n], rows[n].bucket, rows[n].user.value);
      GrownDistinct(Runs(rows[..n]), Joins(rows, n), rows[n]);
    }
  }

  lemma GrownDistinct(cells: seq<Cell>, joins: bool, r: Row)
    requires Fitting(cells, joins, r)
    ensures Distinct(Grown(cells, joins, r)) <==>
            Distinct(cells) && (joins || !HasCell(cells, r.bucket, r.user.value))
  {
    var grown := Grown(cells, joins, r);
    assert forall i :: 0 <= i < |cells| ==> grown[i].user == cells[i].user && grown[i].key == cells[i].key;
    if !joins {
      assert IsFor(grown[|cells|], r.bucket, r.user.value);
      assert forall i :: 0 <= i < |cells| ==>
        (IsFor(cells[i], r.bucket, r.user.value) <==>
         grown[i].key == grown[|cells|].key && grown[i].user == grown[|cells|].user);
    }
  }

  lemma {:induction false} NoRowsNoSum(rows: seq<Row>, key: Option<string>, user: string)
    requires !Occurs(rows, key, user)
    ensures SumOf(rows, key, user) == ZERO
    decreases |rows|
  {
    if rows == [] {
      assert SumOf(rows, key, user) == ZERO;
    } else {
      OccursInMore(rows, |rows| - 1, key, user);
      NoRowsNoSum(rows[..|rows| - 1], key, user);
    }
  }

  lemma GrownAt(cells: seq<Cell>, joins: bool, r: Row, i: nat)
    requires Fitting(cells, joins, r) && i < |Grown(cells, joins, r)|
    ensures var grown, m := Grown(cells, joins, r), |Grown(cells, joins, r)| - 1;
            if i < m then i < |cells| && grown[i] == cells[i]
            else grown[i] == Cell(r.bucket, r.user.value, if joins then Plus(cells[m].sum, r.amounts) else r.amounts)
  {
  }

  /** When no row comes back, a cell is the sum of all rows of its bucket and user. */
  lemma {:induction false} CellsAreSums(rows: seq<Row>, i: nat)
    requires Named(rows) && NeverReturns(rows) && i < |Runs(rows)|
    ensures Runs(rows)[i].sum == SumOf(rows, Runs(rows)[i].key, Runs(rows)[i].user)
    decreases |rows|
  {
    var n := |rows| - 1;
    var before, r, runs := Runs(rows[..n]), rows[n], Runs(rows);
    assert Named(rows[..n]) && NeverReturns(rows[..n]);
    GrownAt(before, Joins(rows, n), r, i);
    if i < |runs| - 1 {
      RunsDistinct(rows);
      GrownAt(before, Joins(rows, n), r, |runs| - 1);
      assert !IsOf(r, runs[i].key, runs[i].user);
      CellsAreSums(rows[..n], i);
    } else if Joins(rows, n) {
      CellsAreSums(rows[..n], i);
    } else {
      NoRowsNoSum(rows[..n], r.bucket, r.user.value);
      assert Plus(ZERO, r.amounts) == r.amounts;
    }
  }

  /**
   A table with user names shows a subtotal for every bucket and user that occur
   together and for no others: exactly one for each exactly when the rows of every
   user in a bucket stand together, and then it is the sum of those rows.
   */
  lemma OneSubtotalForEachUser(rows: seq<Row>, buckets: seq<Bucket>)
    requires Named(rows) && Partitions(rows, buckets)
    ensures InRange(rows, buckets)
    ensures var cells := CellsIn(PrintBuckets(rows, buckets, true).lines);
            && (forall key, user :: HasCell(cells, key, user) <==> Occurs(rows, key, user))
            && (Distinct(cells) <==> Contiguous(rows))
            && (Contiguous(rows) ==>
                  forall i :: 0 <= i < |cells| ==> cells[i].sum == SumOf(rows, cells[i].key, cells[i].user))
  {
    TablePrintsRuns(rows, buckets);
    RunsDistinct(rows);
    ContiguousNeverReturns(rows);
    forall key, user ensures HasCell(Runs(rows), key, user) <==> Occurs(rows, key, user) {
      RunsHoldUsers(rows, key, user);
    }
    if NeverReturns(rows) {
      forall i | 0 <= i < |Runs(rows)| ensures Runs(rows)[i].sum == SumOf(rows, Runs(rows)[i].key, Runs(rows)[i].user) {
        CellsAreSums(rows, i);
      }
    }
  }

  // ---------------------------------------------------------------- buckets of one key

  /** The rows of a bucket key stand together. */
  ghost predicate KeysTogether(rows: seq<Row>) {
    forall i, j, k :: 0 <= i < j < k < |rows| && rows[i].bucket == rows[k].bucket ==> rows[j].bucket == rows[i].bucket
  }

  ghost predicate KeysDistinct(buckets: seq<Bucket>) {
    forall i, j :: 0 <= i < j < |buckets| ==> buckets[i].key != buckets[j].key
  }

  /** All rows as those of one user: their runs are the buckets. */
  function Erased(rows: seq<Row>): (erased: seq<Row>)
    ensures Named(erased) && |erased| == |rows|
    ensures forall i :: 0 <= i < |rows| ==> erased[i] == rows[i].(user := Some(""))
  {
    seq(|rows|, i requires 0 <= i < |rows| => rows[i].(user := Some("")))
  }

  lemma ErasedAppend(a: seq<Row>, b: seq<Row>)
    ensures Erased(a + b) == Erased(a) + Erased(b)
  {
    var all, parts := Erased(a + b), Erased(a) + Erased(b);
    assert |all| == |parts| && forall k :: 0 <= k < |all| ==> all[k] == parts[k];
  }

  lemma {:induction false} OneRun(rows: seq<Row>, key: Option<string>)
    requires rows != [] && Under(rows, key)
    ensures |Runs(Erased(rows))| == 1 && IsFor(Runs(Erased(rows))[0], key, "")
    decreases |rows|
  {
    var n := |rows| - 1;
    var erased := Erased(rows);
    assert erased[..n] == Erased(rows[..n]);
    if n > 0 {
      OneRun(rows[..n], key);
      assert Joins(erased, n);
    } else {
      assert Runs(erased[..0]) == [];
    }
  }

  ghost predicate KeysOf(cells: seq<Cell>, buckets: seq<Bucket>) {
    |cells| == |buckets| && forall b :: 0 <= b < |buckets| ==> IsFor(cells[b], buckets[b].key, "")
  }

  lemma {:induction false} BucketsAreRuns(rows: seq<Row>, buckets: seq<Bucket>)
    requires Keyed(rows, buckets) && Fits(rows, Listed(buckets))
    ensures KeysOf(Runs(Erased(Picked(rows, Listed(buckets)))), buckets)
    decreases |buckets|
  {
    if buckets == [] {
      assert Picked(rows, Listed(buckets)) == [];
    } else {
      var n := |buckets| - 1;
      LastBucketRuns(rows, buckets);
      BucketStandsApart(rows, buckets);
      var front, here := Picked(rows, Listed(buckets[..n])), Picked(rows, buckets[n].indices);
      BucketsAreRuns(rows, buckets[..n]);
      OneRun(here, buckets[n].key);
      ErasedAppend(front, here);
      RunsAppend(Erased(front), Erased(here));
    }
  }

  lemma TogetherIfErased(rows: seq<Row>)
    ensures KeysTogether(rows) <==> Contiguous(Erased(rows))
  {
    var erased := Erased(rows);
    assert forall i, k :: 0 <= i < |rows| && 0 <= k < |rows| ==>
      (Mates(erased[i], erased[k]) <==> rows[i].bucket == rows[k].bucket);
  }

  /** No key has two buckets exactly when the rows of every key stand together. */
  lemma BucketKeysDistinct(rows: seq<Row>, buckets: seq<Bucket>)
    requires Partitions(rows, buckets)
    ensures KeysDistinct(buckets) <==> KeysTogether(rows)
  {
    ListedEnds(rows, buckets);
    assert Picked(rows, UpTo(|rows|)) == rows;
    BucketsAreRuns(rows, buckets);
    var runs := Runs(Erased(rows));
    assert KeysDistinct(buckets) <==> Distinct(runs) by {
      assert forall b :: 0 <= b < |buckets| ==> runs[b].key == buckets[b].key && runs[b].user == "";
    }
    RunsDistinct(Erased(rows));
    ContiguousNeverReturns(Erased(rows));
    TogetherIfErased(rows);
  }

  // ---------------------------------------------------------------- with names, nothing is missing

  lemma {:induction false} NobodyUnnamed(rows: seq<Row>, buckets: seq<Bucket>)
    requires Named(rows) && InRange(rows, buckets)
    ensures UnnamedInAll(rows, buckets) == ZERO
    decreases |buckets|
  {
    if buckets == [] {
      NothingPrinted(rows);
    } else {
      var n := |buckets| - 1;
      NobodyUnnamed(rows, buckets[..n]);
      PickedAreNamed(rows, buckets[n].indices);
      assert Unnamed(Picked(rows, buckets[n].indices)) == ZERO;
    }
  }

  /** With user names the subtotals alone add up to the grand total, the sum of all rows. */
  lemma NamedSubtotalsAreTotal(rows: seq<Row>, buckets: seq<Bucket>)
    requires Named(rows) && Partitions(rows, buckets)
    ensures InRange(rows, buckets)
    ensures SubtotalSum(PrintBuckets(rows, buckets, true).lines) == PrintBuckets(rows, buckets, true).grand == Sum(rows)
  {
    GrandTotalIsSum(rows, buckets, true);
    TableConserves(rows, buckets);
    NobodyUnnamed(rows, buckets);
    PlusIsAdditive(SubtotalSum(PrintBuckets(rows, buckets, true).lines), ZERO, ZERO);
  }

  // ---------------------------------------------------------------- the detail lines

  /** A row as it is printed, with the bucket it stands in. */
  datatype Entry = Entry(key: Option<string>, row: Row)

  function EntriesIn(lines: seq<Line>): seq<Entry>
    decreases |lines|
  {
    if lines == [] then []
    else
      var init, last := lines[..|lines| - 1], lines[|lines| - 1];
      EntriesIn(init) + if last.Detail? then [Entry(LastKey(init), last.row)] else []
  }

  /** Rows in their own buckets. */
  function InPlace(rows: seq<Row>): (entries: seq<Entry>)
    ensures |entries| == |rows| && forall i :: 0 <= i < |rows| ==> entries[i] == Entry(rows[i].bucket, rows[i])
  {
    seq(|rows|, i requires 0 <= i < |rows| => Entry(rows[i].bucket, rows[i]))
  }

  lemma EntriesOfOneMore(lines: seq<Line>, l: Line)
    ensures EntriesIn(lines + [l]) == EntriesIn(lines) + if l.Detail? then [Entry(LastKey(lines), l.row)] else []
    ensures LastKey(lines + [l]) == if l.Header? then l.key else LastKey(lines)
    ensures !l.Detail? ==> EntriesIn(lines + [l]) == EntriesIn(lines)
  {
    Last(lines, l);
    Empty(EntriesIn(lines));
  }

  lemma RowIsListed(p: Pen, r: Row, detail: bool)
    ensures EntriesIn(PrintRow(p, r, detail).lines) == EntriesIn(p.lines) + [Entry(LastKey(p.lines), r)]
    ensures LastKey(PrintRow(p, r, detail).lines) == LastKey(p.lines)
  {
    if detail && p.user.Some? && p.user != r.user {
      var closing := Subtotal(p.user.value, p.own);
      EntriesOfOneMore(p.lines, closing);
      EntriesOfOneMore(p.lines + [closing], Detail(r));
    } else {
      EntriesOfOneMore(p.lines, Detail(r));
    }
  }

  lemma InPlaceAppend(a: seq<Row>, b: seq<Row>)
    ensures InPlace(a + b) == InPlace(a) + InPlace(b)
  {
    var all, parts := InPlace(a + b), InPlace(a) + InPlace(b);
    assert |all| == |parts| && forall i :: 0 <= i < |all| ==> all[i] == parts[i];
  }

  lemma InPlaceOne(r: Row)
    ensures InPlace([r]) == [Entry(r.bucket, r)]
  {
  }

  lemma {:induction false} RowsAreListed(p: Pen, rows: seq<Row>, detail: bool)
    requires Under(rows, LastKey(p.lines))
    ensures EntriesIn(PrintRows(p, rows, detail).lines) == EntriesIn(p.lines) + InPlace(rows)
    ensures LastKey(PrintRows(p, rows, detail).lines) == LastKey(p.lines)
    decreases |rows|
  {
    if rows == [] {
      assert InPlace(rows) == [];
      Empty(EntriesIn(p.lines));
    } else {
      var n := |rows| - 1;
      RowsAreListed(p, rows[..n], detail);
      RowIsListed(PrintRows(p, rows[..n], detail), rows[n], detail);
      InPlaceOne(rows[n]);
      InPlaceAppend(rows[..n], [rows[n]]);
      assert rows == rows[..n] + [rows[n]];
      Reassociate(EntriesIn(p.lines), InPlace(rows[..n]), [Entry(rows[n].bucket, rows[n])]);
    }
  }

  lemma BucketIsListed(p: Pen, key: Option<string>, rows: seq<Row>, detail: bool)
    requires Under(rows, key)
    ensures EntriesIn(PrintBucket(p, key, rows, detail).lines) == EntriesIn(p.lines) + InPlace(rows)
  {
    var start := Pen(p.lines + [Header(key)], None, ZERO, p.grand);
    EntriesOfOneMore(p.lines, Header(key));
    RowsAreListed(start, rows, detail);
    var p1 := PrintRows(start, rows, detail);
    if detail && p1.user.Some? {
      EntriesOfOneMore(p1.lines, Subtotal(p1.user.value, p1.own));
    }
  }

  lemma {:induction false} BucketsAreListed(rows: seq<Row>, buckets: seq<Bucket>, detail: bool)
    requires Keyed(rows, buckets) && InRange(rows, buckets) && Fits(rows, Listed(buckets))
    ensures EntriesIn(PrintBuckets(rows, buckets, detail).lines) == InPlace(Picked(rows, Listed(buckets)))
    decreases |buckets|
  {
    if buckets == [] {
      assert PrintBuckets(rows, buckets, detail).lines == [] && Picked(rows, Listed(buckets)) == [];
    } else {
      var n := |buckets| - 1;
      LastBucketRuns(rows, buckets);
      BucketStandsApart(rows, buckets);
      var front, here := Picked(rows, Listed(buckets[..n])), Picked(rows, buckets[n].indices);
      BucketsAreListed(rows, buckets[..n], detail);
      BucketIsListed(PrintBuckets(rows, buckets[..n], detail), buckets[n].key, here, detail);
      InPlaceAppend(front, here);
    }
  }

  /** At every granularity the table lists each row once, in order, in its own bucket. */
  lemma TableListsRows(rows: seq<Row>, buckets: seq<Bucket>, detail: bool)
    requires Partitions(rows, buckets)
    ensures InRange(rows, buckets) && EntriesIn(PrintBuckets(rows, buckets, detail).lines) == InPlace(rows)
  {
    ListedEnds(rows, buckets);
    assert Picked(rows, UpTo(|rows|)) == rows;
    BucketsAreListed(rows, buckets, detail);
  }

  // ---------------------------------------------------------------- where subtotals stand

  /** Every subtotal stands right behind a row of its user. */
  ghost predicate SubtotalsFollow(lines: seq<Line>) {
    forall i :: 0 <= i < |lines| && lines[i].Subtotal? ==>
      i > 0 && lines[i - 1].Detail? && lines[i - 1].row.user == Some(lines[i].user)
  }

  /** With a current user, the last line is a row of that user. */
  ghost predicate InStep(p: Pen) {
    SubtotalsFollow(p.lines) &&
    (p.user.Some? ==> p.lines != [] && p.lines[|p.lines| - 1].Detail? && p.lines[|p.lines| - 1].row.user == p.user)
  }

  lemma OneMoreFollows(lines: seq<Line>, l: Line)
    requires SubtotalsFollow(lines)
    requires l.Subtotal? ==>
               lines != [] && lines[|lines| - 1].Detail? && lines[|lines| - 1].row.user == Some(l.user)
    ensures SubtotalsFollow(lines + [l])
  {
    var all := lines + [l];
    forall i | 0 <= i < |all| && all[i].Subtotal?
      ensures i > 0 && all[i - 1].Detail? && all[i - 1].row.user == Some(all[i].user)
    {
      assert i < |lines| ==> all[i] == lines[i];
    }
  }

  lemma RowStaysInStep(p: Pen, r: Row)
    requires InStep(p)
    ensures InStep(PrintRow(p, r, true))
  {
    var lines := p.lines;
    if p.user.Some? && p.user != r.user {
      OneMoreFollows(lines, Subtotal(p.user.value, p.own));
      lines := lines + [Subtotal(p.user.value, p.own)];
    }
    OneMoreFollows(lines, Detail(r));
    Last(lines, Detail(r));
  }

  lemma {:induction false} RowsStayInStep(p: Pen, rows: seq<Row>)
    requires InStep(p)
    ensures InStep(PrintRows(p, rows, true))
    decreases |rows|
  {
    if rows != [] {
      RowsStayInStep(p, rows[..|rows| - 1]);
      RowStaysInStep(PrintRows(p, rows[..|rows| - 1], true), rows[|rows| - 1]);
    }
  }

  lemma BucketStaysInStep(p: Pen, key: Option<string>, rows: seq<Row>)
    requires SubtotalsFollow(p.lines)
    ensures SubtotalsFollow(PrintBucket(p, key, rows, true).lines)
  {
    var start := Pen(p.lines + [Header(key)], None, ZERO, p.grand);
    OneMoreFollows(p.lines, Header(key));
    RowsStayInStep(start, rows);
    var p1 := PrintRows(start, rows, true);
    if p1.user.Some? {
      OneMoreFollows(p1.lines, Subtotal(p1.user.value, p1.own));
    }
  }

  /** In the table every subtotal stands right behind a row of its user. */
  lemma {:induction false} SubtotalsStandBehindTheirRows(rows: seq<Row>, buckets: seq<Bucket>)
    requires InRange(rows, buckets)
    ensures SubtotalsFollow(PrintBuckets(rows, buckets, true).lines)
    decreases |buckets|
  {
    if buckets != [] {
      var n := |buckets| - 1;
      SubtotalsStandBehindTheirRows(rows, buckets[..n]);
      BucketStaysInStep(PrintBuckets(rows, buckets[..n], true), buckets[n].key, Picked(rows, buckets[n].indices));
    }
  }

  ghost predicate NoSubtotals(lines: seq<Line>) {
    forall l <- lines :: !l.Subtotal?
  }

  lemma {:induction false} PlainRowsHaveNone(p: Pen, rows: seq<Row>)
    requires NoSubtotals(p.lines)
    ensures NoSubtotals(PrintRows(p, rows, false).lines)
    decreases |rows|
  {
    if rows != [] {
      PlainRowsHaveNone(p, rows[..|rows| - 1]);
    }
  }

  /** Only the detailed table has subtotals. */
  lemma {:induction false} PlainTableHasNone(rows: seq<Row>, buckets: seq<Bucket>)
    requires InRange(rows, buckets)
    ensures NoSubtotals(PrintBuckets(rows, buckets, false).lines)
    decreases |buckets|
  {
    if buckets != [] {
      var n := |buckets| - 1;
      PlainTableHasNone(rows, buckets[..n]);
      var p := PrintBuckets(rows, buckets[..n], false);
      PlainRowsHaveNone(Pen(p.lines + [Header(buckets[n].key)], None, ZERO, p.grand), Picked(rows, buckets[n].indices));
    }
  }

  // ---------------------------------------------------------------- headers

  function HeadersIn(lines: seq<Line>): seq<Option<string>>
    decreases |lines|
  {
    if lines == [] then []
    else
      var init, last := lines[..|lines| - 1], lines[|lines| - 1];
      HeadersIn(init) + if last.Header? then [last.key] else []
  }

  lemma HeadersOfOneMore(lines: seq<Line>, l: Line)
    ensures HeadersIn(lines + [l]) == HeadersIn(lines) + if l.Header? then [l.key] else []
    ensures !l.Header? ==> HeadersIn(lines + [l]) == HeadersIn(lines)
  {
    Last(lines, l);
    Empty(HeadersIn(lines));
  }

  lemma {:induction false} RowsHaveNoHeader(p: Pen, rows: seq<Row>, detail: bool)
    ensures HeadersIn(PrintRows(p, rows, detail).lines) == HeadersIn(p.lines)
    decreases |rows|
  {
    if rows == [] {
      assert PrintRows(p, rows, detail) == p;
    } else {
      var n := |rows| - 1;
      RowsHaveNoHeader(p, rows[..n], detail);
      RowHasNoHeader(PrintRows(p, rows[..n], detail), rows[n], detail);
    }
  }

  lemma RowHasNoHeader(p: Pen, r: Row, detail: bool)
    ensures HeadersIn(PrintRow(p, r, detail).lines) == HeadersIn(p.lines)
  {
    if detail && p.user.Some? && p.user != r.user {
      HeadersOfOneMore(p.lines, Subtotal(p.user.value, p.own));
      HeadersOfOneMore(p.lines + [Subtotal(p.user.value, p.own)], Detail(r));
    } else {
      HeadersOfOneMore(p.lines, Detail(r));
    }
  }

  function KeysOfBuckets(buckets: seq<Bucket>): (keys: seq<Option<string>>)
    ensures |keys| == |buckets| && forall b :: 0 <= b < |buckets| ==> keys[b] == buckets[b].key
    decreases |buckets|
  {
    if buckets == [] then [] else KeysOfBuckets(buckets[..|buckets| - 1]) + [buckets[|buckets| - 1].key]
  }

  /** The table has one header for each bucket, in order. */
  lemma {:induction false} OneHeaderForEachBucket(rows: seq<Row>, buckets: seq<Bucket>, detail: bool)
    requires InRange(rows, buckets)
    ensures HeadersIn(PrintBuckets(rows, buckets, detail).lines) == KeysOfBuckets(buckets)
    decreases |buckets|
  {
    if buckets == [] {
      assert PrintBuckets(rows, buckets, detail).lines == [];
    } else {
      var n := |buckets| - 1;
      OneHeaderForEachBucket(rows, buckets[..n], detail);
      var p, here := PrintBuckets(rows, buckets[..n], detail), Picked(rows, buckets[n].indices);
      var start := Pen(p.lines + [Header(buckets[n].key)], None, ZERO, p.grand);
      HeadersOfOneMore(p.lines, Header(buckets[n].key));
      RowsHaveNoHeader(start, here, detail);
      var p1 := PrintRows(start, here, detail);
      if detail && p1.user.Some? {
        HeadersOfOneMore(p1.lines, Subtotal(p1.user.value, p1.own));
      }
    }
  }
}
