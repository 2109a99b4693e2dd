/**
 * The professor's dashboard (pages/professor/ProfessorDashboard.tsx): the
 * chart colour and name of each alert type, the next three exams, the five
 * most recent alerts and the bar chart of alerts by type. The current time
 * is a parameter.
 */
module ProfessorDashboard {
  import opened Common
  import opened Sorting
  import opened Types
  import Monitoring

  /** The bar colour of an alert type, as a hex string; unknown types are zinc. */
  function AlertColor(alertType: string): (r: string)
    ensures alertType !in AlertTypes ==> r == "#71717a"
  {
    if alertType == FaceNotDetected then "#ef4444"
    else if alertType == MultipleFaces then "#8b5cf6"
    else if alertType == LookingAway then "#f59e0b"
    else if alertType == MissingCommit then "#3b82f6"
    else if alertType == SuspiciousCode then "#ec4899"
    else if alertType == TabSwitch then "#6b7280"
    else "#71717a"
  }

  /** The six known types have six distinct colours, none of them the fallback. */
  lemma AlertColorsDistinct(a: string, b: string)
    requires a in AlertTypes && b in AlertTypes
    ensures AlertColor(a) != "#71717a"
    ensures AlertColor(a) == AlertColor(b) ==> a == b
  {
    if a != b {
      var x, y := AlertColor(a), AlertColor(b);
      assert x[1] != y[1] || x[2] != y[2];
    }
  }

  /** The bar name of an alert type; unknown types are named by their code. */
  function AlertName(alertType: string): (r: string)
    ensures alertType !in AlertTypes ==> r == alertType
  {
    if alertType == FaceNotDetected then "Visage non détecté"
    else if alertType == MultipleFaces then "Plusieurs visages"
    else if alertType == LookingAway then "Regard détourné"
    else if alertType == MissingCommit then "Commit manquant"
    else if alertType == SuspiciousCode then "Code suspect"
    else if alertType == TabSwitch then "Changement d'onglet"
    else alertType
  }

  /** The dashboard names every type exactly as the monitoring page labels it. */
  lemma AlertNameAgreesWithMonitoring(alertType: string)
    ensures AlertName(alertType) == Monitoring.AlertTypeText(alertType)
  {
  }

  // ---------------------------------------------------------------------
  // Upcoming exams

  function StartTime(e: Exam): int
  {
    e.startTime
  }

  predicate StartsAfter(now: int, e: Exam)
  {
    e.startTime > now
  }

  /** The exams not started yet, by ascending start time, the first three. */
  function UpcomingExams(exams: seq<Exam>, now: int): (r: seq<Exam>)
    ensures |r| <= 3 && |r| <= |exams|
    ensures forall i, j :: 0 <= i < j < |r| ==> r[i].startTime <= r[j].startTime
  {
    Take(SortBy(Filter(exams, (e: Exam) => StartsAfter(now, e)), StartTime), 3)
  }

  /**
   * At most three exams, all of them future exams of the list, by ascending
   * start time; three unless fewer are to come; and no future exam left out
   * starts before one that was kept.
   */
  lemma UpcomingExamsSpec(exams: seq<Exam>, now: int)
    ensures var r := UpcomingExams(exams, now);
      && |r| <= 3
      && (forall i :: 0 <= i < |r| ==> r[i] in exams && r[i].startTime > now)
      && (forall i, j :: 0 <= i < j < |r| ==> r[i].startTime <= r[j].startTime)
      && (|r| < 3 ==> forall e :: e in exams && e.startTime > now ==> e in r)
      && (forall e :: e in exams && e.startTime > now && e !in r ==>
            forall i :: 0 <= i < |r| ==> r[i].startTime <= e.startTime)
  {
    UpcomingAreFuture(exams, now);
    UpcomingOrdered(exams, now);
    UpcomingNoneSkipped(exams, now);
  }

  lemma UpcomingAreFuture(exams: seq<Exam>, now: int)
    ensures var r := UpcomingExams(exams, now);
      forall i :: 0 <= i < |r| ==> r[i] in exams && r[i].startTime > now
  {
    var future := Filter(exams, (e: Exam) => StartsAfter(now, e));
    var sorted := SortBy(future, StartTime);
    var r := Take(sorted, 3);
    forall i | 0 <= i < |r|
      ensures r[i] in exams && r[i].startTime > now
    {
      assert r[i] in sorted;
      SortByMembers(future, StartTime, r[i]);
    }
  }

  lemma UpcomingOrdered(exams: seq<Exam>, now: int)
    ensures var r := UpcomingExams(exams, now);
      forall i, j :: 0 <= i < j < |r| ==> r[i].startTime <= r[j].startTime
  {
    var sorted := SortBy(Filter(exams, (e: Exam) => StartsAfter(now, e)), StartTime);
    var r := Take(sorted, 3);
    forall i, j | 0 <= i < j < |r|
      ensures r[i].startTime <= r[j].startTime
    {
      assert StartTime(sorted[i]) <= StartTime(sorted[j]);
    }
  }

  lemma UpcomingNoneSkipped(exams: seq<Exam>, now: int)
    ensures var r := UpcomingExams(exams, now);
      && (|r| < 3 ==> forall e :: e in exams && e.startTime > now ==> e in r)
      && (forall e :: e in exams && e.startTime > now && e !in r ==>
            forall i :: 0 <= i < |r| ==> r[i].startTime <= e.startTime)
  {
    var future := Filter(exams, (e: Exam) => StartsAfter(now, e));
    var r := Take(SortBy(future, StartTime), 3);
    forall e | e in exams && e.startTime > now
      ensures e in future
    {
      var k :| 0 <= k < |exams| && exams[k] == e;
    }
    forall e | e in exams && e.startTime > now && e !in r
      ensures forall i :: 0 <= i < |r| ==> r[i].startTime <= e.startTime
    {
      SortedPrefixLeast(future, StartTime, 3, e);
    }
    forall e | |r| < 3 && e in exams && e.startTime > now
      ensures e in r
    {
      SortByMembers(future, StartTime, e);
    }
  }

  // ---------------------------------------------------------------------
  // Recent alerts

  function NegatedTimestamp(a: Alert): int
  {
    -a.timestamp
  }

  /** The alerts, newest first, the first five; the list given is not reordered. */
  function RecentAlerts(alerts: seq<Alert>): (r: seq<Alert>)
    ensures |r| == if |alerts| < 5 then |alerts| else 5
    ensures forall i, j :: 0 <= i < j < |r| ==> r[i].timestamp >= r[j].timestamp
  {
    Take(SortBy(alerts, NegatedTimestamp), 5)
  }

  /**
   * At most five alerts of the list, newest first; five unless there are
   * fewer; and no alert left out is newer than one that was kept.
   */
  lemma RecentAlertsSpec(alerts: seq<Alert>)
    ensures var r := RecentAlerts(alerts);
      && |r| == (if |alerts| < 5 then |alerts| else 5)
      && (forall i :: 0 <= i < |r| ==> r[i] in alerts)
      && (forall i, j :: 0 <= i < j < |r| ==> r[i].timestamp >= r[j].timestamp)
      && (forall a :: a in alerts && a !in r ==> forall i :: 0 <= i < |r| ==> r[i].timestamp >= a.timestamp)
  {
    var sorted := SortBy(alerts, NegatedTimestamp);
    var r := Take(sorted, 5);
    forall i | 0 <= i < |r|
      ensures r[i] in alerts
    {
      assert r[i] in sorted;
      SortByMembers(alerts, NegatedTimestamp, r[i]);
    }
    forall i, j | 0 <= i < j < |r|
      ensures r[i].timestamp >= r[j].timestamp
    {
      assert NegatedTimestamp(sorted[i]) <= NegatedTimestamp(sorted[j]);
    }
    forall a | a in alerts && a !in r
      ensures forall i :: 0 <= i < |r| ==> r[i].timestamp >= a.timestamp
    {
      SortedPrefixLeast(alerts, NegatedTimestamp, 5, a);
    }
  }

  // ---------------------------------------------------------------------
  // Alerts by type

  datatype Bar = Bar(name: string, count: int, fill: string)

  function AlertTypeData(stats: seq<AlertStats>): (bars: seq<Bar>)
    ensures |bars| == |stats|
    ensures forall i :: 0 <= i < |stats| && stats[i].alertType in AlertTypes ==>
      bars[i].fill != "#71717a" && bars[i].name != stats[i].alertType
  {
    seq(|stats|, i requires 0 <= i < |stats| => Bar(AlertName(stats[i].alertType), stats[i].count, AlertColor(stats[i].alertType)))
  }

  /**
   * One bar per entry, in the same order, with the count copied and the
   * entry's name and colour; and the bars of two different known types never
   * share a name or a colour.
   */
  lemma AlertTypeDataSpec(stats: seq<AlertStats>)
    ensures var bars := AlertTypeData(stats);
      && |bars| == |stats|
      && (forall i :: 0 <= i < |stats| ==>
            bars[i].count == stats[i].count && bars[i].name == AlertName(stats[i].alertType)
            && bars[i].fill == AlertColor(stats[i].alertType))
      && (forall i, j ::
            (0 <= i < |stats| && 0 <= j < |stats| && stats[i].alertType in AlertTypes
             && stats[j].alertType in AlertTypes && stats[i].alertType != stats[j].alertType) ==>
            bars[i].name != bars[j].name && bars[i].fill != bars[j].fill)
  {
    var bars := AlertTypeData(stats);
    forall i, j | 0 <= i < |stats| && 0 <= j < |stats| && stats[i].alertType in AlertTypes
      && stats[j].alertType in AlertTypes && stats[i].alertType != stats[j].alertType
      ensures bars[i].name != bars[j].name && bars[i].fill != bars[j].fill
    {
      AlertColorsDistinct(stats[i].alertType, stats[j].alertType);
      AlertNameAgreesWithMonitoring(stats[i].alertType);
      AlertNameAgreesWithMonitoring(stats[j].alertType);
      Monitoring.AlertTypeTextTellsType(stats[i].alertType, stats[j].alertType);
    }
  }
}
