/** Hook latency statistics: grouping by hook, and nearest-rank percentiles. */
module HookStats {
  import opened Common

  // ---------------------------------------------------------------- percentiles

  predicate Sorted(s: seq<int>) {
    forall i, j :: 0 <= i < j < |s| ==> s[i] <= s[j]
  }

  function DivCeil(a: nat, b: nat): nat
    requires b > 0
  {
    a / b + if a % b > 0 then 1 else 0
  }

  /** The index of the nearest rank, clamped to the list. */
  function Rank(pct: nat, n: nat): (i: nat)
    requires n > 0
    ensures i < n
  {
    var up := DivCeil(pct * n, 100);
    var i := if up > 0 then up - 1 else 0;
    if i < n - 1 then i else n - 1
  }

  function Percentile(sorted: seq<int>, pct: nat): int {
    if sorted == [] then 0 else sorted[Rank(pct, |sorted|)]
  }

  /** How many samples are at or below `v`. */
  function AtMost(s: seq<int>, v: int): (n: nat)
    ensures n <= |s|
    decreases |s|
  {
    if s == [] then 0 else AtMost(s[..|s| - 1], v) + if s[|s| - 1] <= v then 1 else 0
  }

  /** At least `pct` percent of the samples are at or below `v`. */
  predicate Covers(s: seq<int>, pct: nat, v: int) {
    100 * AtMost(s, v) >= pct * |s|
  }

  lemma {:induction false} AtMostBounds(s: seq<int>, v: int, i: nat)
    requires Sorted(s) && i < |s|
    ensures s[i] <= v ==> AtMost(s, v) >= i + 1
    ensures s[i] > v ==> AtMost(s, v) <= i
    decreases |s|
  {
    var n := |s| - 1;
    if i < n {
      AtMostBounds(s[..n], v, i);
    } else {
      if s[n] <= v {
        AllAtMost(s, v);
      }
    }
  }

  lemma {:induction false} AllAtMost(s: seq<int>, v: int)
    requires forall i :: 0 <= i < |s| ==> s[i] <= v
    ensures AtMost(s, v) == |s|
    decreases |s|
  {
    if s == [] {
    } else {
      AllAtMost(s[..|s| - 1], v);
    }
  }

  /** The rank is the least whose samples make up `pct` percent. */
  lemma RankIsLeast(pct: nat, n: nat)
    requires n > 0 && pct <= 100
    ensures 100 * (Rank(pct, n) + 1) >= pct * n
    ensures Rank(pct, n) > 0 ==> 100 * Rank(pct, n) < pct * n
  {
    var a := pct * n;
    assert a <= 100 * n;
    assert a == 100 * (a / 100) + a % 100;
  }

  /** A percentile up to 100 is the least sample at or below which there are at least that many percent. */
  lemma PercentileIsLeastCover(sorted: seq<int>, pct: nat, v: int)
    requires Sorted(sorted) && sorted != [] && pct <= 100
    ensures Percentile(sorted, pct) in sorted && Covers(sorted, pct, Percentile(sorted, pct))
    ensures v in sorted && Covers(sorted, pct, v) ==> Percentile(sorted, pct) <= v
  {
    var n, i := |sorted|, Rank(pct, |sorted|);
    RankIsLeast(pct, n);
    AtMostBounds(sorted, sorted[i], i);
    FirstIsLeast(sorted, v);
    AtMostBounds(sorted, v, i);
  }

  lemma FirstIsLeast(sorted: seq<int>, v: int)
    requires Sorted(sorted)
    ensures v in sorted ==> sorted[0] <= v
  {
  }

  lemma PercentIsMonotone(a: nat, b: nat)
    requires a <= b
    ensures DivCeil(a, 100) <= DivCeil(b, 100)
  {
    assert a == 100 * (a / 100) + a % 100;
    assert b == 100 * (b / 100) + b % 100;
  }

  lemma TimesIsMonotone(p: nat, q: nat, n: nat)
    requires p <= q
    ensures p * n <= q * n
  {
    assert q * n == p * n + (q - p) * n;
  }

  lemma RankIsMonotone(p: nat, q: nat, n: nat)
    requires n > 0 && p <= q
    ensures Rank(p, n) <= Rank(q, n)
  {
    TimesIsMonotone(p, q, n);
    PercentIsMonotone(p * n, q * n);
  }

  lemma PercentileIsMonotone(sorted: seq<int>, p: nat, q: nat)
    requires Sorted(sorted) && p <= q
    ensures Percentile(sorted, p) <= Percentile(sorted, q)
  {
    if sorted != [] {
      RankIsMonotone(p, q, |sorted|);
    }
  }

  // ---------------------------------------------------------------- grouping

  datatype Sample = Sample(hook: string, duration: int, success: int)

  /** The durations of one hook, in the order of the samples. */
  function DurationsOf(samples: seq<Sample>, hook: string): seq<int>
    decreases |samples|
  {
    if samples == [] then []
    else
      var last := samples[|samples| - 1];
      DurationsOf(samples[..|samples| - 1], hook) + if last.hook == hook then [last.duration] else []
  }

  function SuccessesOf(samples: seq<Sample>, hook: string): int
    decreases |samples|
  {
    if samples == [] then 0
    else
      var last := samples[|samples| - 1];
      SuccessesOf(samples[..|samples| - 1], hook) + if last.hook == hook then last.success else 0
  }

  function Sum(s: seq<int>): int
    decreases |s|
  {
    if s == [] then 0 else Sum(s[..|s| - 1]) + s[|s| - 1]
  }

  type Durations = map<string, seq<int>>
  type Counts = map<string, (int, int)>   // successes and all
  type Sums = map<string, int>

  ghost predicate GroupsFor(samples: seq<Sample>, h: string, durations: Durations, counts: Counts, sums: Sums) {
    var d := DurationsOf(samples, h);
    if d == [] then h !in durations && h !in counts && h !in sums
    else
      h in durations && durations[h] == d && h in counts && counts[h] == (SuccessesOf(samples, h), |d|) &&
      h in sums && sums[h] == Sum(d)
  }

  /** The maps hold, for every hook that has samples and no other, its durations, counts and sum. */
  ghost predicate Groups(samples: seq<Sample>, durations: Durations, counts: Counts, sums: Sums) {
    forall h :: GroupsFor(samples, h, durations, counts, sums)
  }

  lemma {:induction false} NoDurationsNoSuccess(samples: seq<Sample>, hook: string)
    requires DurationsOf(samples, hook) == []
    ensures SuccessesOf(samples, hook) == 0
    decreases |samples|
  {
    if samples == [] {
    } else {
      NoDurationsNoSuccess(samples[..|samples| - 1], hook);
    }
  }

  /** What one more sample adds to each hook. */
  lemma OneMore(samples: seq<Sample>, i: nat, h: string)
    requires i < |samples|
    ensures DurationsOf(samples[..i + 1], h) == DurationsOf(samples[..i], h) + if samples[i].hook == h then [samples[i].duration] else []
    ensures samples[i].hook != h ==> DurationsOf(samples[..i + 1], h) == DurationsOf(samples[..i], h)
    ensures SuccessesOf(samples[..i + 1], h) == SuccessesOf(samples[..i], h) + if samples[i].hook == h then samples[i].success else 0
  {
    assert samples[..i + 1][..i] == samples[..i];
    Empty(DurationsOf(samples[..i], h));
  }

  function DurationsNow(durations: map<string, seq<int>>, s: Sample): seq<int> {
    (if s.hook in durations then durations[s.hook] else []) + [s.duration]
  }

  function CountsNow(counts: map<string, (int, int)>, s: Sample): (int, int) {
    if s.hook in counts then (counts[s.hook].0 + s.success, counts[s.hook].1 + 1) else (s.success, 1)
  }

  function SumNow(sums: map<string, int>, s: Sample): int {
    (if s.hook in sums then sums[s.hook] else 0) + s.duration
  }

  lemma GroupOneMoreFor(samples: seq<Sample>, i: nat, h: string, durations: Durations, counts: Counts, sums: Sums)
    requires i < |samples| && GroupsFor(samples[..i], h, durations, counts, sums)
    ensures var s := samples[i];
            GroupsFor(samples[..i + 1], h, durations[s.hook := DurationsNow(durations, s)],
                      counts[s.hook := CountsNow(counts, s)], sums[s.hook := SumNow(sums, s)])
  {
    var s := samples[i];
    OneMore(samples, i, h);
    if s.hook == h {
      var d := DurationsOf(samples[..i], h);
      Last(d, s.duration);
      if d == [] {
        NoDurationsNoSuccess(samples[..i], h);
      }
    }
  }

  lemma GroupOneMore(samples: seq<Sample>, i: nat, durations: Durations, counts: Counts, sums: Sums)
    requires i < |samples| && Groups(samples[..i], durations, counts, sums)
    ensures var s := samples[i];
            Groups(samples[..i + 1], durations[s.hook := DurationsNow(durations, s)],
                   counts[s.hook := CountsNow(counts, s)], sums[s.hook := SumNow(sums, s)])
  {
    var s, now := samples[i], samples[..i + 1];
    var durations', counts', sums' := durations[s.hook := DurationsNow(durations, s)],
                                      counts[s.hook := CountsNow(counts, s)], sums[s.hook := SumNow(sums, s)];
    forall h ensures GroupsFor(now, h, durations', counts', sums') {
      GroupOneMoreFor(samples, i, h, durations, counts, sums);
    }
  }

  lemma NothingGrouped()
    ensures Groups([], map[], map[], map[])
  {
  }

  /** Group the samples by hook, with running counts and sums. */
  method GroupSamples(samples: seq<Sample>)
    returns (durations: Durations, counts: Counts, sums: Sums)
    ensures Groups(samples, durations, counts, sums)
  {
    durations, counts, sums := map[], map[], map[];
    NothingGrouped();
    assert samples[..0] == [];
    for i := 0 to |samples|
      invariant Groups(samples[..i], durations, counts, sums)
    {
      GroupOneMore(samples, i, durations, counts, sums);
      var s := samples[i];
      durations, counts, sums :=
        durations[s.hook := DurationsNow(durations, s)], counts[s.hook := CountsNow(counts, s)], sums[s.hook := SumNow(sums, s)];
    }
    assert samples[..|samples|] == samples;
  }

  // ---------------------------------------------------------------- what grouping keeps

  /** Samples arrive ordered by duration within each hook. */
  ghost predicate OrderedWithinHooks(samples: seq<Sample>) {
    forall i, j :: 0 <= i < j < |samples| && samples[i].hook == samples[j].hook ==> samples[i].duration <= samples[j].duration
  }

  lemma {:induction false} DurationsBelow(samples: seq<Sample>, hook: string, bound: int)
    requires forall i :: 0 <= i < |samples| && samples[i].hook == hook ==> samples[i].duration <= bound
    ensures forall k :: 0 <= k < |DurationsOf(samples, hook)| ==> DurationsOf(samples, hook)[k] <= bound
    decreases |samples|
  {
    if samples == [] {
    } else {
      var n := |samples| - 1;
      assert forall i :: 0 <= i < n ==> samples[..n][i] == samples[i];
      DurationsBelow(samples[..n], hook, bound);
    }
  }

  /** Each hook's list is sorted, as the percentiles need it. */
  lemma {:induction false} DurationsAreSorted(samples: seq<Sample>, hook: string)
    requires OrderedWithinHooks(samples)
    ensures Sorted(DurationsOf(samples, hook))
    decreases |samples|
  {
    if samples == [] {
    } else {
      var n := |samples| - 1;
      assert forall i :: 0 <= i < n ==> samples[..n][i] == samples[i];
      DurationsAreSorted(samples[..n], hook);
      if samples[n].hook == hook {
        DurationsBelow(samples[..n], hook, samples[n].duration);
      }
    }
  }

  /** Hooks, each named once, as an ordered map lists its keys. */
  ghost predicate EachOnce(hooks: seq<string>) {
    forall i, j :: 0 <= i < j < |hooks| ==> hooks[i] != hooks[j]
  }

  function CountOver(samples: seq<Sample>, hooks: seq<string>): nat
    decreases |hooks|
  {
    if hooks == [] then 0 else CountOver(samples, hooks[..|hooks| - 1]) + |DurationsOf(samples, hooks[|hooks| - 1])|
  }

  function SumOver(samples: seq<Sample>, hooks: seq<string>): int
    decreases |hooks|
  {
    if hooks == [] then 0 else SumOver(samples, hooks[..|hooks| - 1]) + Sum(DurationsOf(samples, hooks[|hooks| - 1]))
  }

  function TotalDuration(samples: seq<Sample>): int
    decreases |samples|
  {
    if samples == [] then 0 else TotalDuration(samples[..|samples| - 1]) + samples[|samples| - 1].duration
  }

  lemma {:induction false} OneMoreOver(samples: seq<Sample>, n: nat, hooks: seq<string>)
    requires |samples| == n + 1 && EachOnce(hooks)
    ensures CountOver(samples, hooks) == CountOver(samples[..n], hooks) + if samples[n].hook in hooks then 1 else 0
    ensures SumOver(samples, hooks) == SumOver(samples[..n], hooks) + if samples[n].hook in hooks then samples[n].duration else 0
    decreases |hooks|
  {
    if hooks == [] {
    } else {
      var m := |hooks| - 1;
      OneMoreOver(samples, n, hooks[..m]);
      OneMoreFor(samples, n, hooks[m]);
      assert hooks == hooks[..m] + [hooks[m]];
    }
  }

  lemma OneMoreFor(samples: seq<Sample>, n: nat, h: string)
    requires |samples| == n + 1
    ensures var before, after := DurationsOf(samples[..n], h), DurationsOf(samples, h);
            if samples[n].hook == h then |after| == |before| + 1 && Sum(after) == Sum(before) + samples[n].duration
            else after == before
  {
    Last(DurationsOf(samples[..n], h), samples[n].duration);
    Empty(DurationsOf(samples[..n], h));
  }

  lemma {:induction false} NoSamplesOver(hooks: seq<string>)
    ensures CountOver([], hooks) == 0 && SumOver([], hooks) == 0
    decreases |hooks|
  {
    if hooks == [] {
    } else {
      NoSamplesOver(hooks[..|hooks| - 1]);
    }
  }

  /** Over the hooks together no sample and no duration is lost or counted twice. */
  lemma {:induction false} GroupingConserves(samples: seq<Sample>, hooks: seq<string>)
    requires EachOnce(hooks) && forall i :: 0 <= i < |samples| ==> samples[i].hook in hooks
    ensures CountOver(samples, hooks) == |samples| && SumOver(samples, hooks) == TotalDuration(samples)
    decreases |samples|
  {
    if samples == [] {
      NoSamplesOver(hooks);
    } else {
      var n := |samples| - 1;
      var init := samples[..n];
      assert forall i :: 0 <= i < n ==> init[i] == samples[i];
      GroupingConserves(init, hooks);
      OneMoreOver(samples, n, hooks);
      assert samples[n].hook in hooks;
    }
  }

  function SuccessesOver(samples: seq<Sample>, hooks: seq<string>): int
    decreases |hooks|
  {
    if hooks == [] then 0 else SuccessesOver(samples, hooks[..|hooks| - 1]) + SuccessesOf(samples, hooks[|hooks| - 1])
  }

  function TotalSuccesses(samples: seq<Sample>): int {
    if samples == [] then 0 else samples[0].success + TotalSuccesses(samples[1..])
  }

  lemma {:induction false} TotalSuccessesLast(samples: seq<Sample>)
    requires samples != []
    ensures TotalSuccesses(samples) == TotalSuccesses(samples[..|samples| - 1]) + samples[|samples| - 1].success
    decreases |samples|
  {
    var n := |samples| - 1;
    if n > 0 {
      TotalSuccessesLast(samples[1..]);
      assert samples[1..][..n - 1] == samples[..n][1..];
    } else {
      assert samples[..0] == [] && samples[1..] == [];
    }
  }

  lemma {:induction false} OneMoreSuccessOver(samples: seq<Sample>, n: nat, hooks: seq<string>)
    requires |samples| == n + 1 && EachOnce(hooks)
    ensures SuccessesOver(samples, hooks) ==
            SuccessesOver(samples[..n], hooks) + if samples[n].hook in hooks then samples[n].success else 0
    decreases |hooks|
  {
    if hooks == [] {
    } else {
      var m := |hooks| - 1;
      OneMoreSuccessOver(samples, n, hooks[..m]);
      assert hooks == hooks[..m] + [hooks[m]];
    }
  }

  lemma {:induction false} NoSuccessOver(hooks: seq<string>)
    ensures SuccessesOver([], hooks) == 0
    decreases |hooks|
  {
    if hooks == [] {
    } else {
      NoSuccessOver(hooks[..|hooks| - 1]);
    }
  }

  /** Nor is a success lost, or counted for another hook. */
  lemma {:induction false} SuccessesConserved(samples: seq<Sample>, hooks: seq<string>)
    requires EachOnce(hooks) && forall i :: 0 <= i < |samples| ==> samples[i].hook in hooks
    ensures SuccessesOver(samples, hooks) == TotalSuccesses(samples)
    decreases |samples|
  {
    if samples == [] {
      NoSuccessOver(hooks);
    } else {
      var n := |samples| - 1;
      var init := samples[..n];
      assert forall i :: 0 <= i < n ==> init[i] == samples[i];
      SuccessesConserved(init, hooks);
      OneMoreSuccessOver(samples, n, hooks);
      TotalSuccessesLast(samples);
      assert samples[n].hook in hooks;
    }
  }

  /** A hook whose samples all failed has no success, and with all succeeding one for each sample. */
  lemma {:induction false} SuccessesAreItsOwn(samples: seq<Sample>, hook: string, s: int)
    requires forall i :: 0 <= i < |samples| && samples[i].hook == hook ==> samples[i].success == s
    ensures SuccessesOf(samples, hook) == s * |DurationsOf(samples, hook)|
    decreases |samples|
  {
    if samples == [] {
      assert DurationsOf(samples, hook) == [];
    } else {
      var n := |samples| - 1;
      assert forall i :: 0 <= i < n ==> samples[..n][i] == samples[i];
      SuccessesAreItsOwn(samples[..n], hook, s);
      SuccessStep(s, |DurationsOf(samples[..n], hook)|);
    }
  }

  lemma SuccessStep(s: int, n: nat)
    ensures s * (n + 1) == s * n + s
  {
  }

  /** The percentiles of every hook are in order. */
  lemma PercentilesInOrder(samples: seq<Sample>, hook: string)
    requires OrderedWithinHooks(samples)
    ensures var d := DurationsOf(samples, hook);
            Percentile(d, 50) <= Percentile(d, 95) <= Percentile(d, 99)
  {
    DurationsAreSorted(samples, hook);
    PercentileIsMonotone(DurationsOf(samples, hook), 50, 95);
    PercentileIsMonotone(DurationsOf(samples, hook), 95, 99);
  }
}
