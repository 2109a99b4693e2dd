/**
 * The commit analysis page (pages/student/Commits.tsx): intervals between
 * consecutive commits, their delay flag and mean, commits per day for the
 * chart, the repository name shown for a GitHub URL, and the fetch handler's
 * guard against a blank URL.
 *
 * Timestamps and commit dates are integer milliseconds since the epoch; a
 * commit's chart day is the UTC day of its date, which is what the ISO
 * "YYYY-MM-DD" key identifies.
 */
module Commits {
  import opened Common
  import opened Sorting

  /** Minutes between two commits above which the later one counts as delayed. */
  const DelayThreshold := 15
  const MsPerMinute := 60000
  const MsPerDay := 86400000

  datatype Commit = Commit(
    id: string, hash: string, message: string, author: string, date: int, url: string, timestamp: int)

  datatype CommitWithInterval = CommitWithInterval(commit: Commit, timeInterval: Option<int>, isDelayed: Option<bool>)

  datatype Stats = Stats(totalCommits: int, averageInterval: int)

  datatype DayCount = DayCount(day: int, count: int)

  // ---------------------------------------------------------------------
  // calculateIntervals

  function Plain(c: Commit): CommitWithInterval
  {
    CommitWithInterval(c, None, None)
  }

  /** Each commit but the last of the sorted copy is annotated with the gap to the next one. */
  function Annotate(sorted: seq<Commit>, i: int): CommitWithInterval
    requires 0 <= i < |sorted|
  {
    if i == |sorted| - 1 then Plain(sorted[i])
    else
      var diffMinutes := (sorted[i].timestamp - sorted[i + 1].timestamp) / MsPerMinute;
      CommitWithInterval(sorted[i], Some(diffMinutes), Some(diffMinutes > DelayThreshold))
  }

  /** A copy of the list, newest first (comparator b.timestamp - a.timestamp). */
  function NewestFirst(commits: seq<Commit>): seq<Commit>
  {
    SortBy(commits, NegatedTimestamp)
  }

  function NegatedTimestamp(c: Commit): int
  {
    -c.timestamp
  }

  function DayKey(e: DayCount): int
  {
    e.day
  }

  function CalculateIntervals(commits: seq<Commit>): (r: seq<CommitWithInterval>)
    ensures |r| == |commits|
  {
    if |commits| <= 1 then seq(|commits|, i requires 0 <= i < |commits| => Plain(commits[i]))
    else
      var sorted := NewestFirst(commits);
      seq(|sorted|, i requires 0 <= i < |sorted| => Annotate(sorted, i))
  }

  function CommitsOf(r: seq<CommitWithInterval>): (cs: seq<Commit>)
    ensures |cs| == |r| && forall i :: 0 <= i < |r| ==> cs[i] == r[i].commit
  {
    if r == [] then [] else [r[0].commit] + CommitsOf(r[1..])
  }

  /** Lists of at most one commit come back as they are, without intervals. */
  lemma IntervalsOfShortList(commits: seq<Commit>)
    requires |commits| <= 1
    ensures CommitsOf(CalculateIntervals(commits)) == commits
    ensures forall i :: 0 <= i < |commits| ==> CalculateIntervals(commits)[i].timeInterval.None?
  {
  }

  /**
   * Longer lists come back as a permutation of the input, sorted newest first.
   */
  lemma IntervalsNewestFirst(commits: seq<Commit>)
    requires |commits| >= 2
    ensures var r := CalculateIntervals(commits);
      && multiset(CommitsOf(r)) == multiset(commits)
      && (forall i, j :: 0 <= i < j < |r| ==> r[i].commit.timestamp >= r[j].commit.timestamp)
  {
    var r := CalculateIntervals(commits);
    var sorted := NewestFirst(commits);
    assert CommitsOf(r) == sorted;
    forall i, j | 0 <= i < j < |r|
      ensures r[i].commit.timestamp >= r[j].commit.timestamp
    {
      assert NegatedTimestamp(sorted[i]) <= NegatedTimestamp(sorted[j]);
    }
  }

  /**
   * In a longer list every entry but the last carries the floored minute gap
   * to the next one (never negative) and is delayed exactly when that gap
   * exceeds 15 minutes; the last entry carries neither.
   */
  lemma IntervalsGaps(commits: seq<Commit>)
    requires |commits| >= 2
    ensures var r := CalculateIntervals(commits);
      && r[|r| - 1].timeInterval.None? && r[|r| - 1].isDelayed.None?
      && (forall i :: 0 <= i < |r| - 1 ==>
            && r[i].timeInterval == Some((r[i].commit.timestamp - r[i + 1].commit.timestamp) / MsPerMinute)
            && r[i].timeInterval.value >= 0
            && (r[i].isDelayed == Some(true) <==> r[i].timeInterval.value > DelayThreshold)
            && r[i].isDelayed.Some?)
  {
    var r := CalculateIntervals(commits);
    var sorted := NewestFirst(commits);
    forall i | 0 <= i < |r| - 1
      ensures r[i].timeInterval == Some((r[i].commit.timestamp - r[i + 1].commit.timestamp) / MsPerMinute)
      ensures r[i].timeInterval.value >= 0
    {
      assert r[i] == Annotate(sorted, i) && r[i + 1].commit == sorted[i + 1];
      assert NegatedTimestamp(sorted[i]) <= NegatedTimestamp(sorted[i + 1]);
    }
  }

  // ---------------------------------------------------------------------
  // calculateStats

  /** The intervals that are defined, in order (filter then map). */
  function DefinedIntervals(cs: seq<CommitWithInterval>): (r: seq<int>)
    ensures |r| <= |cs|
  {
    if cs == [] then []
    else (if cs[0].timeInterval.Some? then [cs[0].timeInterval.value] else []) + DefinedIntervals(cs[1..])
  }

  function Sum(xs: seq<int>): int
  {
    if xs == [] then 0 else xs[0] + Sum(xs[1..])
  }

  lemma SumPrepend(x: seq<int>, rest: seq<int>)
    requires |x| <= 1
    ensures Sum(x + rest) == (if x == [] then 0 else x[0]) + Sum(rest)
  {
    if x == [] {
      assert x + rest == rest;
    } else {
      assert (x + rest)[1..] == rest;
    }
  }

  function CalculateStats(cs: seq<CommitWithInterval>): (s: Stats)
    ensures s.totalCommits == |cs|
    ensures DefinedIntervals(cs) == [] ==> s.averageInterval == 0
  {
    var intervals := DefinedIntervals(cs);
    Stats(|cs|, if |intervals| > 0 then RoundRatio(Sum(intervals), |intervals|) else 0)
  }

  /** The average is the mean of the defined intervals, rounded to the nearest minute (Math.round). */
  lemma AverageIsRoundedMean(cs: seq<CommitWithInterval>)
    ensures var n := |DefinedIntervals(cs)|;
      var a := CalculateStats(cs).averageInterval;
      n > 0 ==> 2 * n * a <= 2 * Sum(DefinedIntervals(cs)) + n < 2 * n * a + 2 * n
  {
    var n := |DefinedIntervals(cs)|;
    if n > 0 {
      RoundRatioBounds(Sum(DefinedIntervals(cs)), n);
    }
  }

  lemma {:induction false} DefinedIntervalsNonNegative(cs: seq<CommitWithInterval>)
    requires forall i :: 0 <= i < |cs| && cs[i].timeInterval.Some? ==> cs[i].timeInterval.value >= 0
    ensures Sum(DefinedIntervals(cs)) >= 0
  {
    if cs != [] {
      DefinedIntervalsNonNegative(cs[1..]);
      var head := if cs[0].timeInterval.Some? then [cs[0].timeInterval.value] else [];
      SumPrepend(head, DefinedIntervals(cs[1..]));
    }
  }

  lemma {:induction false} DefinedIntervalsCount(cs: seq<CommitWithInterval>)
    requires |cs| >= 1
    requires forall i :: 0 <= i < |cs| - 1 ==> cs[i].timeInterval.Some?
    requires cs[|cs| - 1].timeInterval.None?
    ensures |DefinedIntervals(cs)| == |cs| - 1
  {
    if |cs| > 1 {
      DefinedIntervalsCount(cs[1..]);
    }
  }

  /** A mean of gaps that are never negative is never negative. */
  lemma AverageNonNegative(cs: seq<CommitWithInterval>)
    requires Sum(DefinedIntervals(cs)) >= 0
    ensures CalculateStats(cs).averageInterval >= 0
  {
    var n := |DefinedIntervals(cs)|;
    var a := CalculateStats(cs).averageInterval;
    AverageIsRoundedMean(cs);
    if n > 0 && a < 0 {
      MulNonPositive(2 * n, a + 1);
      assert false;
    }
  }

  /** On the page's own pipeline, the mean is taken over the n-1 gaps and is never negative. */
  lemma StatsOfIntervals(commits: seq<Commit>)
    ensures var s := CalculateStats(CalculateIntervals(commits));
      s.totalCommits == |commits| && s.averageInterval >= 0
      && (|commits| <= 1 ==> s.averageInterval == 0)
      && (|commits| >= 2 ==> |DefinedIntervals(CalculateIntervals(commits))| == |commits| - 1)
  {
    var r := CalculateIntervals(commits);
    if |commits| >= 2 {
      IntervalsGaps(commits);
      DefinedIntervalsCount(r);
      DefinedIntervalsNonNegative(r);
      AverageNonNegative(r);
    } else if |commits| == 1 {
      assert DefinedIntervals(r) == [] + DefinedIntervals(r[1..]);
    }
  }

  // ---------------------------------------------------------------------
  // prepareChartData

  /** The UTC day of a commit's date (the key new Date(date).toISOString() yields). */
  function DayOf(c: Commit): int
  {
    c.date / MsPerDay
  }

  /** How many commits fall on day d. */
  function CountOnDay(commits: seq<Commit>, d: int): (n: nat)
    ensures n <= |commits|
  {
    if commits == [] then 0
    else CountOnDay(commits[..|commits| - 1], d) + (if DayOf(commits[|commits| - 1]) == d then 1 else 0)
  }

  function Days(data: seq<DayCount>): (ds: seq<int>)
    ensures |ds| == |data| && forall i :: 0 <= i < |data| ==> ds[i] == data[i].day
  {
    if data == [] then [] else [data[0].day] + Days(data[1..])
  }

  function SumCounts(data: seq<DayCount>): int
  {
    if data == [] then 0 else data[0].count + SumCounts(data[1..])
  }

  /** The counts of the keys in order (Object.entries of the accumulator). */
  function SumOver(keys: seq<int>, acc: map<int, int>): int
    requires forall j :: 0 <= j < |keys| ==> keys[j] in acc
  {
    if keys == [] then 0 else SumOver(keys[..|keys| - 1], acc) + acc[keys[|keys| - 1]]
  }

  ghost predicate DistinctDays(data: seq<DayCount>)
  {
    forall i, j :: 0 <= i < j < |data| ==> data[i].day != data[j].day
  }

  /** What the chart shows: one entry per day with commits, counting them, days ascending. */
  ghost predicate IsChartOf(commits: seq<Commit>, data: seq<DayCount>)
  {
    && (forall i :: 0 <= i < |data| ==> data[i].count == CountOnDay(commits, data[i].day) && data[i].count >= 1)
    && (forall i, j :: 0 <= i < j < |data| ==> data[i].day < data[j].day)
    && (forall k :: 0 <= k < |commits| ==> DayOf(commits[k]) in Days(data))
    && SumCounts(data) == |commits|
  }

  /** The keys list the accumulator's days once each, in insertion order. */
  ghost predicate KeysOf(acc: map<int, int>, keys: seq<int>)
  {
    && (forall d :: d in acc <==> d in keys)
    && (forall j :: 0 <= j < |keys| ==> keys[j] in acc)
    && (forall a, b :: 0 <= a < b < |keys| ==> keys[a] != keys[b])
  }

  /** Each day of the accumulator holds the exact, positive count of its commits. */
  ghost predicate CountsOf(seen: seq<Commit>, acc: map<int, int>)
  {
    forall d :: d in acc ==> acc[d] == CountOnDay(seen, d) && acc[d] >= 1
  }

  ghost predicate Covers(seen: seq<Commit>, acc: map<int, int>)
  {
    forall k :: 0 <= k < |seen| ==> DayOf(seen[k]) in acc
  }

  /** The reduce's accumulator after seeing some commits: keys in insertion order, exact counts. */
  ghost predicate Tally(seen: seq<Commit>, acc: map<int, int>, keys: seq<int>)
  {
    && KeysOf(acc, keys)
    && CountsOf(seen, acc)
    && Covers(seen, acc)
    && SumOver(keys, acc) == |seen|
  }

  /** Object.entries of the accumulator, one entry per key in insertion order. */
  function Entries(keys: seq<int>, acc: map<int, int>): (e: seq<DayCount>)
    requires forall j :: 0 <= j < |keys| ==> keys[j] in acc
    ensures |e| == |keys| && forall j :: 0 <= j < |keys| ==> e[j] == DayCount(keys[j], acc[keys[j]])
  {
    seq(|keys|, j requires 0 <= j < |keys| => DayCount(keys[j], acc[keys[j]]))
  }

  /** The accumulator after one more commit on day d: the day's count goes up by one, or starts at 1. */
  function AddDay(acc: map<int, int>, d: int): map<int, int>
  {
    if d in acc then acc[d := acc[d] + 1] else acc[d := 1]
  }

  /** The accumulator's keys in insertion order after one more commit on day d. */
  function AddKey(acc: map<int, int>, keys: seq<int>, d: int): seq<int>
  {
    if d in acc then keys else keys + [d]
  }

  /** The reduce into a per-day dictionary, then the entries sorted by day. */
  method PrepareChartData(commits: seq<Commit>) returns (data: seq<DayCount>)
    ensures IsChartOf(commits, data)
  {
    var acc: map<int, int> := map[];
    var keys: seq<int> := [];
    var i := 0;
    while i < |commits|
      invariant 0 <= i <= |commits|
      invariant Tally(commits[..i], acc, keys)
    {
      var date := DayOf(commits[i]);
      TallyStep(commits[..i], commits[i], acc, keys);
      ghost var acc', keys' := AddDay(acc, date), AddKey(acc, keys, date);
      if date in acc {
        acc := acc[date := acc[date] + 1];
      } else {
        acc := acc[date := 1];
        keys := keys + [date];
      }
      assert acc == acc' && keys == keys';
      assert commits[..i + 1] == commits[..i] + [commits[i]];
      i := i + 1;
    }
    assert commits[..i] == commits;
    data := SortBy(Entries(keys, acc), DayKey);
    ChartOfTally(commits, acc, keys);
  }

  /** One more commit: its day's count goes up by one, or the day is added with count 1. */
  lemma TallyStep(seen: seq<Commit>, c: Commit, acc: map<int, int>, keys: seq<int>)
    requires Tally(seen, acc, keys)
    ensures Tally(seen + [c], AddDay(acc, DayOf(c)), AddKey(acc, keys, DayOf(c)))
  {
    var d := DayOf(c);
    KeysStep(acc, keys, d);
    CountsStep(seen, c, acc);
    CoversStep(seen, c, acc);
    if d in acc {
      SumOverIncrement(keys, acc, d);
    } else {
      SumOverFresh(keys, acc, d);
    }
  }

  lemma KeysStep(acc: map<int, int>, keys: seq<int>, d: int)
    requires KeysOf(acc, keys)
    ensures KeysOf(AddDay(acc, d), AddKey(acc, keys, d))
  {
  }

  lemma CountsStep(seen: seq<Commit>, c: Commit, acc: map<int, int>)
    requires CountsOf(seen, acc) && Covers(seen, acc)
    ensures CountsOf(seen + [c], AddDay(acc, DayOf(c)))
  {
    var d := DayOf(c);
    var seen' := seen + [c];
    assert seen'[..|seen|] == seen;
    if d !in acc {
      NoCommitOnDay(seen, d);
    }
    var acc' := AddDay(acc, d);
    forall e | e in acc'
      ensures acc'[e] == CountOnDay(seen', e) && acc'[e] >= 1
    {
      assert CountOnDay(seen', e) == CountOnDay(seen, e) + (if d == e then 1 else 0);
    }
  }

  lemma CoversStep(seen: seq<Commit>, c: Commit, acc: map<int, int>)
    requires Covers(seen, acc)
    ensures Covers(seen + [c], AddDay(acc, DayOf(c)))
  {
    var seen' := seen + [c];
    forall k | 0 <= k < |seen'|
      ensures DayOf(seen'[k]) in AddDay(acc, DayOf(c))
    {
      if k < |seen| {
        assert seen'[k] == seen[k];
      }
    }
  }

  /** The sorted entries of a complete tally are the chart of the commits. */
  lemma ChartOfTally(commits: seq<Commit>, acc: map<int, int>, keys: seq<int>)
    requires Tally(commits, acc, keys)
    ensures IsChartOf(commits, SortBy(Entries(keys, acc), DayKey))
  {
    var entries := Entries(keys, acc);
    var data := SortBy(entries, DayKey);
    assert SumCounts(data) == |commits| by {
      EntriesSum(keys, acc);
      SumCountsPermutation(entries, data);
    }
    ChartCounts(commits, acc, keys);
    ChartCovers(commits, acc, keys);
    ChartAscending(keys, acc);
  }

  /** Each entry of the chart counts the commits of its day, and at least one. */
  lemma ChartCounts(commits: seq<Commit>, acc: map<int, int>, keys: seq<int>)
    requires Tally(commits, acc, keys)
    ensures forall p :: 0 <= p < |SortBy(Entries(keys, acc), DayKey)| ==>
      SortBy(Entries(keys, acc), DayKey)[p].count == CountOnDay(commits, SortBy(Entries(keys, acc), DayKey)[p].day)
      && SortBy(Entries(keys, acc), DayKey)[p].count >= 1
  {
    var entries := Entries(keys, acc);
    var data := SortBy(entries, DayKey);
    forall p | 0 <= p < |data|
      ensures data[p].count == CountOnDay(commits, data[p].day) && data[p].count >= 1
    {
      assert data[p] in multiset(entries);
      var j :| 0 <= j < |entries| && entries[j] == data[p];
      assert data[p] == DayCount(keys[j], acc[keys[j]]);
    }
  }

  /** Every commit's day has its entry in the chart. */
  lemma ChartCovers(commits: seq<Commit>, acc: map<int, int>, keys: seq<int>)
    requires Tally(commits, acc, keys)
    ensures forall k :: 0 <= k < |commits| ==> DayOf(commits[k]) in Days(SortBy(Entries(keys, acc), DayKey))
  {
    var entries := Entries(keys, acc);
    var data := SortBy(entries, DayKey);
    forall k | 0 <= k < |commits|
      ensures DayOf(commits[k]) in Days(data)
    {
      var d := DayOf(commits[k]);
      var j :| 0 <= j < |keys| && keys[j] == d;
      assert entries[j] in multiset(data);
      var p :| 0 <= p < |data| && data[p] == entries[j];
      assert Days(data)[p] == d;
    }
  }

  /** With distinct keys, the sorted entries have strictly ascending days. */
  lemma ChartAscending(keys: seq<int>, acc: map<int, int>)
    requires forall j :: 0 <= j < |keys| ==> keys[j] in acc
    requires forall a, b :: 0 <= a < b < |keys| ==> keys[a] != keys[b]
    ensures forall i, j :: 0 <= i < j < |SortBy(Entries(keys, acc), DayKey)| ==>
      SortBy(Entries(keys, acc), DayKey)[i].day < SortBy(Entries(keys, acc), DayKey)[j].day
  {
    var entries := Entries(keys, acc);
    var data := SortBy(entries, DayKey);
    DistinctDaysPermutation(entries, data);
    forall i, j | 0 <= i < j < |data|
      ensures data[i].day < data[j].day
    {
      assert DayKey(data[i]) <= DayKey(data[j]);
    }
  }

  /** A day none of the commits falls on has no commits. */
  lemma {:induction false} NoCommitOnDay(commits: seq<Commit>, d: int)
    requires forall k :: 0 <= k < |commits| ==> DayOf(commits[k]) != d
    ensures CountOnDay(commits, d) == 0
  {
    if commits != [] {
      NoCommitOnDay(commits[..|commits| - 1], d);
    }
  }

  lemma {:induction false} SumOverIncrement(keys: seq<int>, acc: map<int, int>, d: int)
    requires forall j :: 0 <= j < |keys| ==> keys[j] in acc
    requires forall a, b :: 0 <= a < b < |keys| ==> keys[a] != keys[b]
    requires d in keys
    ensures SumOver(keys, acc[d := acc[d] + 1]) == SumOver(keys, acc) + 1
  {
    var init := keys[..|keys| - 1];
    if keys[|keys| - 1] == d {
      assert d !in init;
      SumOverUnchanged(init, acc, d, acc[d] + 1);
    } else {
      assert d in init;
      SumOverIncrement(init, acc, d);
    }
  }

  lemma {:induction false} SumOverUnchanged(keys: seq<int>, acc: map<int, int>, d: int, v: int)
    requires forall j :: 0 <= j < |keys| ==> keys[j] in acc
    requires d !in keys
    ensures SumOver(keys, acc[d := v]) == SumOver(keys, acc)
  {
    if keys != [] {
      SumOverUnchanged(keys[..|keys| - 1], acc, d, v);
    }
  }

  lemma SumOverFresh(keys: seq<int>, acc: map<int, int>, d: int)
    requires forall j :: 0 <= j < |keys| ==> keys[j] in acc
    requires d !in keys
    ensures SumOver(keys + [d], acc[d := 1]) == SumOver(keys, acc) + 1
  {
    assert (keys + [d])[..|keys|] == keys;
    SumOverUnchanged(keys, acc, d, 1);
  }

  lemma {:induction false} EntriesSum(keys: seq<int>, acc: map<int, int>)
    requires forall j :: 0 <= j < |keys| ==> keys[j] in acc
    ensures SumCounts(Entries(keys, acc)) == SumOver(keys, acc)
  {
    var e := Entries(keys, acc);
    if keys != [] {
      var init := keys[..|keys| - 1];
      EntriesSum(init, acc);
      var e' := Entries(init, acc);
      assert e == e' + [DayCount(keys[|keys| - 1], acc[keys[|keys| - 1]])];
      SumCountsAppend(e', [DayCount(keys[|keys| - 1], acc[keys[|keys| - 1]])]);
    }
  }

  lemma {:induction false} SumCountsAppend(a: seq<DayCount>, b: seq<DayCount>)
    ensures SumCounts(a + b) == SumCounts(a) + SumCounts(b)
  {
    if a != [] {
      assert (a + b)[1..] == a[1..] + b;
      SumCountsAppend(a[1..], b);
    } else {
      assert a + b == b;
    }
  }

  /** Reordering does not change the total. */
  lemma {:induction false} SumCountsPermutation(a: seq<DayCount>, b: seq<DayCount>)
    requires multiset(a) == multiset(b)
    ensures SumCounts(a) == SumCounts(b)
    decreases |a|
  {
    if a == [] {
      assert |b| == |multiset(b)| == 0;
      assert b == [];
    } else {
      var x := a[0];
      assert x in multiset(b);
      var k :| 0 <= k < |b| && b[k] == x;
      var b' := b[..k] + b[k + 1..];
      RemoveAtMultiset(b, k);
      assert a == [x] + a[1..];
      assert multiset(a[1..]) == multiset(a) - multiset{x};
      SumCountsPermutation(a[1..], b');
      SumCountsRemoveAt(b, k);
    }
  }

  lemma RemoveAtMultiset(b: seq<DayCount>, k: int)
    requires 0 <= k < |b|
    ensures multiset(b[..k] + b[k + 1..]) == multiset(b) - multiset{b[k]}
  {
    assert b == b[..k] + [b[k]] + b[k + 1..];
  }

  lemma SumCountsRemoveAt(b: seq<DayCount>, k: int)
    requires 0 <= k < |b|
    ensures SumCounts(b) == b[k].count + SumCounts(b[..k] + b[k + 1..])
  {
    var pre, post := b[..k], b[k + 1..];
    var tail := [b[k]] + post;
    assert b == pre + tail;
    SumCountsAppend(pre, tail);
    assert SumCounts(tail) == b[k].count + SumCounts(post) by {
      assert tail[0] == b[k] && tail[1..] == post;
    }
    SumCountsAppend(pre, post);
  }

  lemma {:induction false} DistinctDaysOnce(s: seq<DayCount>, x: DayCount)
    requires DistinctDays(s)
    ensures multiset(s)[x] <= 1
  {
    if s != [] {
      assert s == [s[0]] + s[1..];
      DistinctDaysOnce(s[1..], x);
      if s[0] == x {
        assert x !in s[1..];
      }
    }
  }

  /** Reordering keeps days distinct. */
  lemma DistinctDaysPermutation(a: seq<DayCount>, b: seq<DayCount>)
    requires multiset(a) == multiset(b) && DistinctDays(a)
    ensures DistinctDays(b)
  {
    forall i, j | 0 <= i < j < |b|
      ensures b[i].day != b[j].day
    {
      if b[i].day == b[j].day {
        assert b[i] in multiset(a) && b[j] in multiset(a);
        var p :| 0 <= p < |a| && a[p] == b[i];
        var q :| 0 <= q < |a| && a[q] == b[j];
        assert p == q;
        assert b == b[..j] + b[j..];
        assert b[i] in b[..j] && b[j] in b[j..];
        assert multiset(b)[b[i]] == multiset(b[..j])[b[i]] + multiset(b[j..])[b[i]];
        DistinctDaysOnce(a, b[i]);
        assert false;
      }
    }
  }

  // ---------------------------------------------------------------------
  // extractRepoName

  /** The parts of a URL the page reads; None when the URL constructor throws. */
  datatype ParsedUrl = ParsedUrl(hostname: string, pathname: string)

  const DefaultRepoName := "Repo GitHub"

  function PathParts(pathname: string): seq<string>
  {
    Filter(Split(pathname, '/'), (p: string) => p != "")
  }

  function ExtractRepoName(url: Option<ParsedUrl>): (r: string)
    ensures r != DefaultRepoName ==>
      url.Some? && url.value.hostname == "github.com" && |PathParts(url.value.pathname)| >= 2
  {
    match url
    case None => DefaultRepoName
    case Some(u) =>
      if u.hostname != "github.com" then DefaultRepoName
      else
        var parts := PathParts(u.pathname);
        if |parts| >= 2 then parts[0] + "/" + parts[1] else DefaultRepoName
  }

  /** "https://github.com/owner/repo" gives back "owner/repo". */
  lemma RepoNameRoundTrip(owner: string, repo: string)
    requires owner != [] && repo != [] && '/' !in owner && '/' !in repo
    ensures ExtractRepoName(Some(ParsedUrl("github.com", "/" + owner + "/" + repo))) == owner + "/" + repo
  {
    var path := "/" + owner + "/" + repo;
    assert path == [] + ['/'] + (owner + ['/'] + repo);
    SplitAtSep([], owner + ['/'] + repo, '/');
    SplitAtSep(owner, repo, '/');
    SplitNoSep(owner, '/');
    SplitNoSep(repo, '/');
    var parts := ["", owner, repo];
    assert Split(path, '/') == parts;
    var nonEmpty := (p: string) => p != "";
    assert parts[1..][1..][1..] == [];
    assert Filter(parts[1..][1..], nonEmpty) == [repo] + Filter(parts[1..][1..][1..], nonEmpty);
    assert Filter(parts[1..], nonEmpty) == [owner] + Filter(parts[1..][1..], nonEmpty);
    assert Filter(parts, nonEmpty) == [] + Filter(parts[1..], nonEmpty);
  }

  /** Any other host gives the default label, whatever the path. */
  lemma RepoNameOtherHost(u: ParsedUrl)
    requires u.hostname != "github.com"
    ensures ExtractRepoName(Some(u)) == DefaultRepoName
  {
  }

  // ---------------------------------------------------------------------
  // fetchCommits

  const BlankUrlError := "Veuillez entrer une URL de dépôt GitHub"

  datatype PageState = PageState(
    repoUrl: string, commits: seq<CommitWithInterval>, isLoading: bool, error: Option<string>,
    stats: Stats, chartData: seq<DayCount>, pendingFetches: nat)

  /** The click handler: a blank URL only sets the error; otherwise loading starts and one 1000 ms timer is set. */
  function FetchCommits(st: PageState): (r: PageState)
    ensures IsBlank(st.repoUrl) ==> r == st.(error := Some(BlankUrlError))
    ensures !IsBlank(st.repoUrl) ==> r.isLoading && r.error == None && r.pendingFetches == st.pendingFetches + 1
  {
    if IsBlank(st.repoUrl) then st.(error := Some(BlankUrlError))
    else st.(isLoading := true, error := None, pendingFetches := st.pendingFetches + 1)
  }

  /** What the timer computes from the fetched commits: the annotated list, its statistics and the chart. */
  method Analyse(fetched: seq<Commit>) returns (cs: seq<CommitWithInterval>, st: Stats, chart: seq<DayCount>)
    ensures cs == CalculateIntervals(fetched) && st == CalculateStats(cs)
    ensures IsChartOf(fetched, chart)
  {
    chart := PrepareChartData(fetched);
    cs := CalculateIntervals(fetched);
    st := CalculateStats(cs);
  }

  /** The page with its state fields, updated in place by the handlers. */
  class CommitsPage {
    var repoUrl: string
    var commits: seq<CommitWithInterval>
    var isLoading: bool
    var error: Option<string>
    var stats: Stats
    var chartData: seq<DayCount>
    var pendingFetches: nat

    ghost function Model(): PageState
      reads this
    {
      PageState(repoUrl, commits, isLoading, error, stats, chartData, pendingFetches)
    }

    constructor ()
      ensures Model() == PageState("", [], false, None, Stats(0, 0), [], 0)
    {
      repoUrl := "";
      commits := [];
      isLoading := false;
      error := None;
      stats := Stats(0, 0);
      chartData := [];
      pendingFetches := 0;
    }

    method SetRepoUrl(url: string)
      modifies this
      ensures Model() == old(Model()).(repoUrl := url)
    {
      repoUrl := url;
    }

    method Fetch()
      modifies this
      ensures Model() == FetchCommits(old(Model()))
    {
      if IsBlank(repoUrl) {
        error := Some(BlankUrlError);
        return;
      }
      isLoading := true;
      error := None;
      pendingFetches := pendingFetches + 1;
    }

    /** The 1000 ms timer: the fetched commits are analysed and shown. */
    method FetchTimerFires(fetched: seq<Commit>)
      requires pendingFetches > 0
      modifies this
      ensures commits == CalculateIntervals(fetched)
      ensures stats == CalculateStats(commits)
      ensures IsChartOf(fetched, chartData)
      ensures !isLoading && pendingFetches == old(pendingFetches) - 1
      ensures repoUrl == old(repoUrl) && error == old(error)
    {
      var cs, st, chart := Analyse(fetched);
      Show(cs, st, chart);
    }

    /** The state updates at the end of the timer: the results shown, one fetch fewer pending. */
    method Show(cs: seq<CommitWithInterval>, st: Stats, chart: seq<DayCount>)
      requires pendingFetches > 0
      modifies this
      ensures commits == cs && stats == st && chartData == chart
      ensures !isLoading && pendingFetches == old(pendingFetches) - 1
      ensures repoUrl == old(repoUrl) && error == old(error)
    {
      commits, stats, chartData, isLoading, pendingFetches := cs, st, chart, false, pendingFetches - 1;
    }
  }
}
