/**
 The usage report as a table: rows grouped into buckets, a subtotal for each
 user, and the grand total.
 */
module UsageTable {
  import opened Common

  /** The four columns that add up. */
  datatype Totals = Totals(tokensIn: int, tokensOut: int, cost: real, uncached: real)

  const ZERO := Totals(0, 0, 0.0, 0.0)

  function Plus(a: Totals, b: Totals): Totals {
    Totals(a.tokensIn + b.tokensIn, a.tokensOut + b.tokensOut, a.cost + b.cost, a.uncached + b.uncached)
  }

  datatype Row = Row(bucket: Option<string>, user: Option<string>, project: Option<string>, model: Option<string>, amounts: Totals)

  function Sum(rows: seq<Row>): Totals
    decreases |rows|
  {
    if rows == [] then ZERO else Plus(Sum(rows[..|rows| - 1]), rows[|rows| - 1].amounts)
  }

  lemma {:induction false} SumAppend(a: seq<Row>, b: seq<Row>)
    ensures Sum(a + b) == Plus(Sum(a), Sum(b))
    decreases |b|
  {
    if b == [] {
      Empty(a);
    } else {
      var n := |b| - 1;
      Reassociate(a, b[..n], [b[n]]);
      assert b == b[..n] + [b[n]];
      Last(a + b[..n], b[n]);
      SumAppend(a, b[..n]);
    }
  }

  function IntColumn(rows: seq<Row>, column: Totals -> int): int {
    if rows == [] then 0 else column(rows[0].amounts) + IntColumn(rows[1..], column)
  }

  function RealColumn(rows: seq<Row>, column: Totals -> real): real {
    if rows == [] then 0.0 else column(rows[0].amounts) + RealColumn(rows[1..], column)
  }

  lemma SumOfOne(r: Row)
    ensures Sum([r]) == Plus(ZERO, r.amounts)
  {
    assert [r][..0] == [];
  }

  /** Each of the four columns is added up for itself. */
  lemma {:induction false} SumIsByColumn(rows: seq<Row>)
    ensures Sum(rows).tokensIn == IntColumn(rows, (t: Totals) => t.tokensIn)
    ensures Sum(rows).tokensOut == IntColumn(rows, (t: Totals) => t.tokensOut)
    ensures Sum(rows).cost == RealColumn(rows, (t: Totals) => t.cost)
    ensures Sum(rows).uncached == RealColumn(rows, (t: Totals) => t.uncached)
  {
    if rows == [] {
      assert Sum(rows) == ZERO;
    } else {
      SumIsByColumn(rows[1..]);
      SumOfOne(rows[0]);
      SumAppend([rows[0]], rows[1..]);
      assert rows == [rows[0]] + rows[1..];
    }
  }

  // ---------------------------------------------------------------- buckets

  datatype Bucket = Bucket(key: Option<string>, indices: seq<nat>)

  /** The rows that `buckets` name, in order. */
  function Listed(buckets: seq<Bucket>): seq<nat>
    decreases |buckets|
  {
    if buckets == [] then [] else Listed(buckets[..|buckets| - 1]) + buckets[|buckets| - 1].indices
  }

  function UpTo(n: nat): (r: seq<nat>)
    ensures |r| == n && forall i :: 0 <= i < n ==> r[i] == i
  {
    if n == 0 then [] else UpTo(n - 1) + [n - 1]
  }

  /** No bucket is empty, each holds rows of its own key, and neighbours have different keys. */
  ghost predicate Keyed(rows: seq<Row>, buckets: seq<Bucket>) {
    && (forall b :: 0 <= b < |buckets| ==> buckets[b].indices != [])
    && (forall b, k :: 0 <= b < |buckets| && 0 <= k < |buckets[b].indices| ==>
          buckets[b].indices[k] < |rows| && rows[buckets[b].indices[k]].bucket == buckets[b].key)
    && (forall b :: 0 <= b < |buckets| - 1 ==> buckets[b].key != buckets[b + 1].key)
  }

  /** Every row once and in order, each bucket of one key, and neighbours of different keys. */
  ghost predicate Partitions(rows: seq<Row>, buckets: seq<Bucket>) {
    Listed(buckets) == UpTo(|rows|) && Keyed(rows, buckets)
  }

  lemma RowJoins(rows: seq<Row>, i: nat, buckets: seq<Bucket>)
    requires i < |rows| && Partitions(rows[..i], buckets)
    requires buckets != [] && buckets[|buckets| - 1].key == rows[i].bucket
    ensures var n := |buckets| - 1;
            Partitions(rows[..i + 1], buckets[n := Bucket(buckets[n].key, buckets[n].indices + [i])])
  {
    var n := |buckets| - 1;
    var after := buckets[n := Bucket(buckets[n].key, buckets[n].indices + [i])];
    assert after[..n] == buckets[..n];
    Reassociate(Listed(buckets[..n]), buckets[n].indices, [i]);
  }

  lemma RowOpens(rows: seq<Row>, i: nat, buckets: seq<Bucket>)
    requires i < |rows| && Partitions(rows[..i], buckets)
    requires buckets != [] ==> buckets[|buckets| - 1].key != rows[i].bucket
    ensures Partitions(rows[..i + 1], buckets + [Bucket(rows[i].bucket, [i])])
  {
    Last(buckets, Bucket(rows[i].bucket, [i]));
  }

  method GroupByBucket(rows: seq<Row>) returns (buckets: seq<Bucket>)
    ensures Partitions(rows, buckets)
  {
    buckets := [];
    for i := 0 to |rows|
      invariant Partitions(rows[..i], buckets)
    {
      var r, n := rows[i], |buckets| - 1;
      if n >= 0 && buckets[n].key == r.bucket {
        RowJoins(rows, i, buckets);
        buckets := buckets[n := Bucket(buckets[n].key, buckets[n].indices + [i])];
      } else {
        RowOpens(rows, i, buckets);
        buckets := buckets + [Bucket(r.bucket, [i])];
      }
    }
    assert rows[..|rows|] == rows;
  }

  // ---------------------------------------------------------------- printing

  datatype Line =
    | Header(key: Option<string>)
    | Detail(row: Row)
    | Subtotal(user: string, sum: Totals)
    | GrandTotal(sum: Totals)

  /** Lines printed so far, the running totals of the current user, and those of the table. */
  datatype Pen = Pen(lines: seq<Line>, user: Option<string>, own: Totals, grand: Totals)

  /** Close the current user's run, if it has a name. */
  function Closed(p: Pen): Pen {
    if p.user.Some? then p.(lines := p.lines + [Subtotal(p.user.value, p.own)]) else p
  }

  function PrintRow(p: Pen, r: Row, detail: bool): Pen {
    var p1 := if detail && p.user.Some? && p.user != r.user then Closed(p).(own := ZERO) else p;
    var p2 := if detail then p1.(user := r.user, own := Plus(p1.own, r.amounts)) else p1;
    p2.(lines := p2.lines + [Detail(r)], grand := Plus(p2.grand, r.amounts))
  }

  function PrintRows(p: Pen, rows: seq<Row>, detail: bool): Pen
    decreases |rows|
  {
    if rows == [] then p else PrintRow(PrintRows(p, rows[..|rows| - 1], detail), rows[|rows| - 1], detail)
  }

  function PrintBucket(p: Pen, key: Option<string>, rows: seq<Row>, detail: bool): Pen {
    var p1 := PrintRows(Pen(p.lines + [Header(key)], None, ZERO, p.grand), rows, detail);
    if detail then Closed(p1) else p1
  }

  predicate Fits(rows: seq<Row>, indices: seq<nat>) {
    forall k :: 0 <= k < |indices| ==> indices[k] < |rows|
  }

  function Picked(rows: seq<Row>, indices: seq<nat>): (picked: seq<Row>)
    requires Fits(rows, indices)
    ensures |picked| == |indices| && forall k :: 0 <= k < |indices| ==> picked[k] == rows[indices[k]]
  {
    seq(|indices|, k requires 0 <= k < |indices| => rows[indices[k]])
  }

  ghost predicate InRange(rows: seq<Row>, buckets: seq<Bucket>) {
    forall b :: 0 <= b < |buckets| ==> Fits(rows, buckets[b].indices)
  }

  ghost function PrintBuckets(rows: seq<Row>, buckets: seq<Bucket>, detail: bool): Pen
    requires InRange(rows, buckets)
    decreases |buckets|
  {
    if buckets == [] then Pen([], None, ZERO, ZERO)
    else
      var n := |buckets| - 1;
      PrintBucket(PrintBuckets(rows, buckets[..n], detail), buckets[n].key, Picked(rows, buckets[n].indices), detail)
  }

  method PrintTable(rows: seq<Row>, buckets: seq<Bucket>, detail: bool) returns (lines: seq<Line>)
    requires InRange(rows, buckets)
    ensures lines == PrintBuckets(rows, buckets, detail).lines + [GrandTotal(PrintBuckets(rows, buckets, detail).grand)]
  {
    lines := [];
    var grand := ZERO;
    for b := 0 to |buckets|
      invariant lines == PrintBuckets(rows, buckets[..b], detail).lines
      invariant grand == PrintBuckets(rows, buckets[..b], detail).grand
    {
      assert buckets[..b + 1][..b] == buckets[..b];
      var key, indices := buckets[b].key, buckets[b].indices;
      lines := lines + [Header(key)];
      ghost var start := Pen(lines, None, ZERO, grand);
      var own, lastUser := ZERO, None;
      for k := 0 to |indices|
        invariant Pen(lines, lastUser, own, grand) == PrintRows(start, Picked(rows, indices[..k]), detail)
      {
        var r := rows[indices[k]];
        PickedNext(rows, indices, k);
        if detail {
          if lastUser.Some? && lastUser != r.user {
            lines := lines + [Subtotal(lastUser.value, own)];
            own := ZERO;
          }
          lastUser := r.user;
          own := Plus(own, r.amounts);
        }
        lines := lines + [Detail(r)];
        grand := Plus(grand, r.amounts);
      }
      assert indices[..|indices|] == indices;
      if detail && lastUser.Some? {
        lines := lines + [Subtotal(lastUser.value, own)];
      }
    }
    assert buckets[..|buckets|] == buckets;
    lines := lines + [GrandTotal(grand)];
  }

  lemma PickedNext(rows: seq<Row>, indices: seq<nat>, k: nat)
    requires k < |indices| && Fits(rows, indices)
    ensures var picked := Picked(rows, indices[..k + 1]);
            picked[..k] == Picked(rows, indices[..k]) && picked[k] == rows[indices[k]]
  {
    var picked, before := Picked(rows, indices[..k + 1]), Picked(rows, indices[..k]);
    assert |before| == k && forall i :: 0 <= i < k ==> picked[i] == before[i];
    assert picked[..k] == before;
  }

  // ---------------------------------------------------------------- what the subtotals add up to

  /** The subtotals among the lines, added up. */
  function SubtotalSum(lines: seq<Line>): Totals
    decreases |lines|
  {
    if lines == [] then ZERO
    else
      var last := lines[|lines| - 1];
      var before := SubtotalSum(lines[..|lines| - 1]);
      if last.Subtotal? then Plus(before, last.sum) else before
  }

  lemma SubtotalSumOfOneMore(lines: seq<Line>, l: Line)
    ensures SubtotalSum(lines + [l]) == if l.Subtotal? then Plus(SubtotalSum(lines), l.sum) else SubtotalSum(lines)
  {
    Last(lines, l);
  }

  /** The rows at the end of a bucket that have no user name, added up: no subtotal shows them. */
  function Unnamed(rows: seq<Row>): Totals
    decreases |rows|
  {
    if rows == [] || rows[|rows| - 1].user.Some? then ZERO
    else Plus(Unnamed(rows[..|rows| - 1]), rows[|rows| - 1].amounts)
  }

  lemma PlusIsAdditive(a: Totals, b: Totals, c: Totals)
    ensures Plus(Plus(a, b), c) == Plus(a, Plus(b, c)) && Plus(a, b) == Plus(b, a) && Plus(a, ZERO) == a
  {
  }

  /** What the subtotals show so far, with the running totals that are still to be shown. */
  function Shown(p: Pen): Totals {
    Plus(SubtotalSum(p.lines), p.own)
  }

  lemma ClosingShows(p: Pen)
    requires p.user.Some?
    ensures Shown(Closed(p).(own := ZERO)) == Shown(p)
  {
    SubtotalSumOfOneMore(p.lines, Subtotal(p.user.value, p.own));
    PlusIsAdditive(Plus(SubtotalSum(p.lines), p.own), ZERO, ZERO);
  }

  lemma RowShows(p: Pen, r: Row)
    ensures Shown(PrintRow(p, r, true)) == Plus(Shown(p), r.amounts)
  {
    var p1 := if p.user.Some? && p.user != r.user then Closed(p).(own := ZERO) else p;
    if p.user.Some? && p.user != r.user {
      ClosingShows(p);
    }
    SubtotalSumOfOneMore(p1.lines, Detail(r));
    PlusIsAdditive(SubtotalSum(p1.lines), p1.own, r.amounts);
  }

  /** The running totals hold what no subtotal shows yet. */
  lemma {:induction false} RowsConserve(p: Pen, rows: seq<Row>)
    ensures Shown(PrintRows(p, rows, true)) == Plus(Shown(p), Sum(rows))
    ensures PrintRows(p, rows, true).grand == Plus(p.grand, Sum(rows))
    decreases |rows|
  {
    if rows == [] {
      PlusIsAdditive(Shown(p), ZERO, ZERO);
      PlusIsAdditive(p.grand, ZERO, ZERO);
    } else {
      var n := |rows| - 1;
      RowsConserve(p, rows[..n]);
      RowShows(PrintRows(p, rows[..n], true), rows[n]);
      PlusIsAdditive(Shown(p), Sum(rows[..n]), rows[n].amounts);
      PlusIsAdditive(p.grand, Sum(rows[..n]), rows[n].amounts);
    }
  }

  /** While the current user has no name, the running totals are those of the unnamed rows at the end. */
  lemma {:induction false} RowsUnnamed(p: Pen, rows: seq<Row>)
    requires p.user.None? && p.own == ZERO
    ensures PrintRows(p, rows, true).user == if rows == [] then None else rows[|rows| - 1].user
    ensures PrintRows(p, rows, true).user.None? ==> PrintRows(p, rows, true).own == Unnamed(rows)
    decreases |rows|
  {
    if rows != [] {
      RowsUnnamed(p, rows[..|rows| - 1]);
    }
  }

  /** In each bucket the subtotals miss exactly the unnamed rows at its end. */
  lemma BucketConserves(p: Pen, key: Option<string>, rows: seq<Row>)
    ensures Plus(SubtotalSum(PrintBucket(p, key, rows, true).lines), Unnamed(rows)) == Plus(SubtotalSum(p.lines), Sum(rows))
    ensures PrintBucket(p, key, rows, true).grand == Plus(p.grand, Sum(rows))
  {
    var start := Pen(p.lines + [Header(key)], None, ZERO, p.grand);
    SubtotalSumOfOneMore(p.lines, Header(key));
    PlusIsAdditive(SubtotalSum(p.lines), ZERO, ZERO);
    RowsConserve(start, rows);
    RowsUnnamed(start, rows);
    var p1 := PrintRows(start, rows, true);
    if p1.user.Some? {
      ClosingShows(p1);
    }
  }

  ghost function UnnamedInAll(rows: seq<Row>, buckets: seq<Bucket>): Totals
    requires InRange(rows, buckets)
    decreases |buckets|
  {
    if buckets == [] then ZERO
    else
      var n := |buckets| - 1;
      Plus(UnnamedInAll(rows, buckets[..n]), Unnamed(Picked(rows, buckets[n].indices)))
  }

  /** Two sums that grow by the same amount, one of them by way of a part still missing. */
  lemma SumsStayEqual(shown: Totals, missing: Totals, shown': Totals, gap: Totals, sum: Totals)
    requires Plus(shown', gap) == Plus(shown, sum)
    ensures Plus(shown', Plus(missing, gap)) == Plus(Plus(shown, missing), sum)
  {
  }

  lemma BucketAddsUp(p: Pen, missing: Totals, key: Option<string>, rows: seq<Row>)
    requires Plus(SubtotalSum(p.lines), missing) == p.grand
    ensures var p' := PrintBucket(p, key, rows, true);
            Plus(SubtotalSum(p'.lines), Plus(missing, Unnamed(rows))) == p'.grand
  {
    BucketConserves(p, key, rows);
    SumsStayEqual(SubtotalSum(p.lines), missing, SubtotalSum(PrintBucket(p, key, rows, true).lines), Unnamed(rows), Sum(rows));
  }

  /** The subtotals and the unnamed rows at the ends of buckets add up to the grand total, in all four columns. */
  lemma {:induction false} TableConserves(rows: seq<Row>, buckets: seq<Bucket>)
    requires InRange(rows, buckets)
    ensures Plus(SubtotalSum(PrintBuckets(rows, buckets, true).lines), UnnamedInAll(rows, buckets)) ==
            PrintBuckets(rows, buckets, true).grand
    decreases |buckets|
  {
    if buckets == [] {
      NothingPrinted(rows);
    } else {
      var n := |buckets| - 1;
      TableConserves(rows, buckets[..n]);
      BucketAddsUp(PrintBuckets(rows, buckets[..n], true), UnnamedInAll(rows, buckets[..n]),
                   buckets[n].key, Picked(rows, buckets[n].indices));
    }
  }

  lemma NothingPrinted(rows: seq<Row>)
    ensures SubtotalSum(PrintBuckets(rows, [], true).lines) == ZERO && PrintBuckets(rows, [], true).grand == ZERO
    ensures UnnamedInAll(rows, []) == ZERO && Plus(ZERO, ZERO) == ZERO
  {
  }

  // ---------------------------------------------------------------- the grand total

  lemma {:induction false} PickedAppend(rows: seq<Row>, a: seq<nat>, b: seq<nat>)
    requires Fits(rows, a) && Fits(rows, b)
    ensures Fits(rows, a + b) && Picked(rows, a + b) == Picked(rows, a) + Picked(rows, b)
  {
    var all, parts := Picked(rows, a + b), Picked(rows, a) + Picked(rows, b);
    assert |all| == |parts| && forall k :: 0 <= k < |all| ==> all[k] == parts[k];
  }

  lemma {:induction false} GrandIsListed(rows: seq<Row>, buckets: seq<Bucket>, detail: bool)
    requires InRange(rows, buckets)
    ensures Fits(rows, Listed(buckets))
    ensures PrintBuckets(rows, buckets, detail).grand == Sum(Picked(rows, Listed(buckets)))
    decreases |buckets|
  {
    if buckets == [] {
      assert PrintBuckets(rows, buckets, detail).grand == ZERO;
      assert Picked(rows, []) == [];
    } else {
      var n := |buckets| - 1;
      var p, here := PrintBuckets(rows, buckets[..n], detail), Picked(rows, buckets[n].indices);
      GrandIsListed(rows, buckets[..n], detail);
      PickedAppend(rows, Listed(buckets[..n]), buckets[n].indices);
      SumAppend(Picked(rows, Listed(buckets[..n])), here);
      BucketGrand(p, buckets[n].key, here, detail);
    }
  }

  lemma BucketGrand(p: Pen, key: Option<string>, rows: seq<Row>, detail: bool)
    ensures PrintBucket(p, key, rows, detail).grand == Plus(p.grand, Sum(rows))
  {
    RowsGrand(Pen(p.lines + [Header(key)], None, ZERO, p.grand), rows, detail);
  }

  lemma {:induction false} RowsGrand(p: Pen, rows: seq<Row>, detail: bool)
    ensures PrintRows(p, rows, detail).grand == Plus(p.grand, Sum(rows))
    decreases |rows|
  {
    if rows == [] {
      PlusIsAdditive(p.grand, ZERO, ZERO);
    } else {
      var n := |rows| - 1;
      RowsGrand(p, rows[..n], detail);
      PlusIsAdditive(p.grand, Sum(rows[..n]), rows[n].amounts);
    }
  }

  /** Over the buckets of its own rows the table's grand total is the sum of all rows, at every granularity. */
  lemma GrandTotalIsSum(rows: seq<Row>, buckets: seq<Bucket>, detail: bool)
    requires Partitions(rows, buckets)
    ensures InRange(rows, buckets) && PrintBuckets(rows, buckets, detail).grand == Sum(rows)
  {
    assert InRange(rows, buckets);
    GrandIsListed(rows, buckets, detail);
    assert Picked(rows, UpTo(|rows|)) == rows;
  }
}
