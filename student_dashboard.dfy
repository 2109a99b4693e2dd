/**
 * The student's dashboard (pages/student/StudentDashboard.tsx): the student's
 * own exam entries paired with their exam, the countdown text before an exam
 * and the label of each card's button. The signed-in user and the current
 * time are parameters.
 */
module StudentDashboard {
  import opened Common
  import opened Types

  /** A student exam entry with the exam it refers to, when one is found. */
  datatype UpcomingExam = UpcomingExam(entry: StudentExam, examDetails: Option<Exam>)

  /** Array.prototype.find on the exam id: the first exam carrying it. */
  function FindExam(exams: seq<Exam>, id: string): (r: Option<Exam>)
    ensures r.None? <==> forall i :: 0 <= i < |exams| ==> exams[i].id != id
    ensures r.Some? ==> exists k :: 0 <= k < |exams| && exams[k] == r.value && r.value.id == id
                          && forall i :: 0 <= i < k ==> exams[i].id != id
  {
    if exams == [] then None
    else if exams[0].id == id then
      assert exams[0] == exams[0];
      Some(exams[0])
    else
      var r := FindExam(exams[1..], id);
      if r.Some? then
        var k :| 0 <= k < |exams[1..]| && exams[1..][k] == r.value && r.value.id == id
                 && forall i :: 0 <= i < k ==> exams[1..][i].id != id;
        assert exams[k + 1] == r.value;
        r
      else r
  }

  predicate OwnedBy(user: User, se: StudentExam)
  {
    se.studentId == user.id
  }

  /** The cards: nothing at all without a user, otherwise the user's entries, each with its exam. */
  function UpcomingExams(user: Option<User>, studentExams: seq<StudentExam>, exams: seq<Exam>): (r: Option<seq<UpcomingExam>>)
    ensures r.None? <==> user.None?
    ensures r.Some? ==> |r.value| <= |studentExams|
    ensures r.Some? ==> forall i :: 0 <= i < |r.value| ==> r.value[i].entry.studentId == user.value.id
  {
    match user
    case None => None
    case Some(u) =>
      var own := Filter(studentExams, (se: StudentExam) => OwnedBy(u, se));
      Some(seq(|own|, i requires 0 <= i < |own| => UpcomingExam(own[i], FindExam(exams, own[i].examId))))
  }

  /**
   * With a user, one card per entry of that student, in the order of the
   * entries, each paired with the first exam with the entry's exam id (none
   * when there is no such exam); every entry of the student gets a card.
   */
  lemma UpcomingExamsSpec(user: Option<User>, studentExams: seq<StudentExam>, exams: seq<Exam>)
    ensures user.None? <==> UpcomingExams(user, studentExams, exams).None?
    ensures user.Some? ==>
      var cards := UpcomingExams(user, studentExams, exams).value;
      && |cards| == CountIf(studentExams, (se: StudentExam) => OwnedBy(user.value, se))
      && (forall i :: 0 <= i < |cards| ==>
            cards[i].entry in studentExams && cards[i].entry.studentId == user.value.id
            && cards[i].examDetails == FindExam(exams, cards[i].entry.examId))
      && (forall se :: se in studentExams && se.studentId == user.value.id ==>
            exists i :: 0 <= i < |cards| && cards[i].entry == se)
  {
    if user.Some? {
      var u := user.value;
      var p := (se: StudentExam) => OwnedBy(u, se);
      var own := Filter(studentExams, p);
      var cards := UpcomingExams(user, studentExams, exams).value;
      assert |own| == CountIf(studentExams, p);
      forall se | se in studentExams && se.studentId == u.id
        ensures exists i :: 0 <= i < |cards| && cards[i].entry == se
      {
        var k :| 0 <= k < |studentExams| && studentExams[k] == se;
        assert se in own;
        var i :| 0 <= i < |own| && own[i] == se;
        assert cards[i].entry == se;
      }
    }
  }

  // ---------------------------------------------------------------------
  // Time until the exam

  const MsPerDay := 86400000
  const MsPerHour := 3600000
  const MsPerMinute := 60000

  /**
   * The countdown text, for a start time in milliseconds. A missing exam has
   * an empty start time, which parses as an invalid date: every quantity is
   * then NaN, and only the hours-and-minutes branch is reached.
   */
  function TimeUntilExam(startTime: Option<int>, now: int): (r: string)
    ensures startTime.Some? && startTime.value < now ==> r == "En cours"
  {
    match startTime
    case None => "NaNh NaNmin"
    case Some(start) => Countdown(start - now)
  }

  /** The text for a start diff milliseconds away. */
  function Countdown(diff: int): (r: string)
    ensures r == "En cours" <==> diff < 0
  {
    if diff < 0 then "En cours"
    else
      var days := diff / MsPerDay;
      var hours := (diff % MsPerDay) / MsPerHour;
      if days > 0 then DaysText(days, hours) else HoursText(hours, (diff % MsPerHour) / MsPerMinute)
  }

  /** "d jour(s) hh" */
  function DaysText(days: nat, hours: nat): (r: string)
    ensures |r| > 0 && r[|r| - 1] == 'h'
  {
    NatToString(days) + " jour" + PluralS(days) + " " + NatToString(hours) + "h"
  }

  /** "hh mmmin" */
  function HoursText(hours: nat, minutes: nat): (r: string)
    ensures |r| > 0 && r[|r| - 1] == 'n'
  {
    NatToString(hours) + "h " + NatToString(minutes) + "min"
  }

  /** A start time given is counted down from now. */
  lemma CountdownOf(start: Option<int>, now: int)
    requires start.Some?
    ensures TimeUntilExam(start, now) == Countdown(start.value - now)
  {
  }

  /** An exam whose start is past reads "En cours". */
  lemma StartedExamInProgress(start: Option<int>, now: int)
    requires start.Some? && start.value < now
    ensures TimeUntilExam(start, now) == "En cours"
  {
    CountdownOf(start, now);
  }

  /**
   * At least a day ahead: whole days (with "s" from two days on) and the
   * hours within the day, 0 to 23; together they are the time left rounded
   * down to the hour.
   */
  lemma TimeUntilInDays(start: Option<int>, now: int, days: nat, hours: nat)
    requires start.Some? && start.value - now >= MsPerDay
    requires days == (start.value - now) / MsPerDay && hours == ((start.value - now) % MsPerDay) / MsPerHour
    ensures days >= 1 && hours <= 23
    ensures days * MsPerDay + hours * MsPerHour <= start.value - now < days * MsPerDay + (hours + 1) * MsPerHour
    ensures TimeUntilExam(start, now) == NatToString(days) + " jour" + PluralS(days) + " " + NatToString(hours) + "h"
    ensures PluralS(days) == "s" <==> start.value - now >= 2 * MsPerDay
  {
    var diff := start.value - now;
    DaysArith(diff, days, hours);
    DaysBranch(diff, days, hours);
    CountdownOf(start, now);
  }

  lemma DaysBranch(diff: int, days: nat, hours: nat)
    requires 0 <= diff && diff / MsPerDay == days && days >= 1
    requires (diff % MsPerDay) / MsPerHour == hours
    ensures Countdown(diff) == DaysText(days, hours)
  {
  }

  /** The arithmetic of the days branch. */
  lemma DaysArith(diff: int, days: int, hours: int)
    requires diff >= MsPerDay && days == diff / MsPerDay && hours == (diff % MsPerDay) / MsPerHour
    ensures days >= 1 && 0 <= hours <= 23
    ensures days * MsPerDay + hours * MsPerHour <= diff < days * MsPerDay + (hours + 1) * MsPerHour
    ensures days > 1 <==> diff >= 2 * MsPerDay
  {
  }

  /**
   * Less than a day ahead: hours and minutes, 0 to 23 and 0 to 59, the time
   * left rounded down to the minute.
   */
  lemma TimeUntilInHours(start: Option<int>, now: int, hours: nat, minutes: nat)
    requires start.Some? && 0 <= start.value - now < MsPerDay
    requires hours == (start.value - now) / MsPerHour && minutes == ((start.value - now) % MsPerHour) / MsPerMinute
    ensures hours <= 23 && minutes <= 59
    ensures hours * MsPerHour + minutes * MsPerMinute <= start.value - now < hours * MsPerHour + (minutes + 1) * MsPerMinute
    ensures TimeUntilExam(start, now) == NatToString(hours) + "h " + NatToString(minutes) + "min"
  {
    var diff := start.value - now;
    HoursArith(diff, hours, minutes);
    HoursTextOf(start, now, diff, hours, minutes);
  }

  /** The text of the hours branch, once the parts of the time left are known. */
  lemma HoursTextOf(start: Option<int>, now: int, diff: int, hours: nat, minutes: nat)
    requires start.Some? && diff == start.value - now && 0 <= diff && diff / MsPerDay == 0
    requires (diff % MsPerDay) / MsPerHour == hours && (diff % MsPerHour) / MsPerMinute == minutes
    ensures TimeUntilExam(start, now) == NatToString(hours) + "h " + NatToString(minutes) + "min"
  {
    HoursBranch(diff, hours, minutes);
    CountdownOf(start, now);
  }

  /** Within the day, the hours-and-minutes text is shown. */
  lemma HoursBranch(diff: int, hours: nat, minutes: nat)
    requires 0 <= diff && diff / MsPerDay == 0
    requires (diff % MsPerDay) / MsPerHour == hours && (diff % MsPerHour) / MsPerMinute == minutes
    ensures Countdown(diff) == HoursText(hours, minutes)
  {
  }

  /** The arithmetic of the hours branch. */
  lemma HoursArith(diff: int, hours: int, minutes: int)
    requires 0 <= diff < MsPerDay
    requires hours == diff / MsPerHour && minutes == (diff % MsPerHour) / MsPerMinute
    ensures diff / MsPerDay == 0 && (diff % MsPerDay) / MsPerHour == hours
    ensures 0 <= hours <= 23 && 0 <= minutes <= 59
    ensures hours * MsPerHour + minutes * MsPerMinute <= diff < hours * MsPerHour + (minutes + 1) * MsPerMinute
  {
    var rest := diff % MsPerHour;
    assert diff == hours * MsPerHour + rest;
    assert rest == minutes * MsPerMinute + rest % MsPerMinute;
  }

  // ---------------------------------------------------------------------
  // The card's button

  function ButtonLabel(status: StudentExamStatus): (r: string)
    ensures r == "Reprendre" <==> status == InProgress
    ensures r == "Détails" <==> status == NotStarted
    ensures r == "Voir résultats" <==> status == Submitted || status == Graded
  {
    match status
    case InProgress => "Reprendre"
    case NotStarted => "Détails"
    case _ => "Voir résultats"
  }

  /** The welcome line's count: "examen" takes an "s" from two cards on. */
  function WelcomeCount(cards: seq<UpcomingExam>): (r: string)
    ensures |r| > 0 && (r[|r| - 1] == 's' <==> |cards| > 1)
  {
    NatToString(|cards|) + " examen" + PluralS(|cards|)
  }

  lemma WelcomeCountPlural(cards: seq<UpcomingExam>)
    ensures WelcomeCount(cards)[|WelcomeCount(cards)| - 1] == 's' <==> |cards| > 1
    ensures DigitsValue(NatToString(|cards|)) == |cards|
  {
    NatToStringValue(|cards|);
  }
}
