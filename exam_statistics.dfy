/**
 * The four statistic cards above the exam history
 * (components/exams/ExamStatistics.tsx): exam counts by status, student
 * totals and the rounded attendance percentage, fraud totals and the fraud
 * rate, and the "next exam" card.
 */
module ExamStatistics {
  import opened Common
  import opened ExamTypes

  /** The fraud rate per present student, in percent, as an exact ratio num / den. */
  datatype Ratio = Ratio(num: int, den: int)

  datatype Statistics = Statistics(
    totalExams: nat, completedExams: nat, scheduledExams: nat, inProgressExams: nat,
    totalStudents: int, presentStudents: int, averageAttendance: int,
    totalFraudIncidents: nat, fraudRatePerStudent: Ratio)

  function CountStatus(exams: seq<Exam>, s: ExamStatus): (n: nat)
    ensures n <= |exams|
  {
    CountIf(exams, (e: Exam) => e.status == s)
  }

  function SumTotal(exams: seq<Exam>): int
  {
    if exams == [] then 0 else exams[0].totalStudents + SumTotal(exams[1..])
  }

  function SumPresent(exams: seq<Exam>): int
  {
    if exams == [] then 0 else exams[0].presentStudents + SumPresent(exams[1..])
  }

  function SumIncidents(exams: seq<Exam>): nat
  {
    if exams == [] then 0 else |exams[0].fraudIncidents| + SumIncidents(exams[1..])
  }

  function Compute(exams: seq<Exam>): (st: Statistics)
    ensures st.totalExams == |exams|
    ensures st.completedExams == CountStatus(exams, Completed)
      && st.scheduledExams == CountStatus(exams, Scheduled)
      && st.inProgressExams == CountStatus(exams, InProgress)
    ensures st.totalStudents == SumTotal(exams) && st.presentStudents == SumPresent(exams)
      && st.totalFraudIncidents == SumIncidents(exams)
    ensures st.totalStudents <= 0 ==> st.averageAttendance == 0
    ensures st.totalStudents > 0 ==>
      2 * st.totalStudents * st.averageAttendance <= 200 * st.presentStudents + st.totalStudents
        < 2 * st.totalStudents * st.averageAttendance + 2 * st.totalStudents
    ensures st.presentStudents <= 0 ==> st.fraudRatePerStudent.num == 0
    ensures st.presentStudents > 0 ==>
      st.fraudRatePerStudent == Ratio(100 * st.totalFraudIncidents, st.presentStudents)
  {
    var total := SumTotal(exams);
    var present := SumPresent(exams);
    var incidents := SumIncidents(exams);
    var attendance := if total > 0 then RoundRatio(100 * present, total) else 0;
    assert total > 0 ==> 2 * total * attendance <= 200 * present + total < 2 * total * attendance + 2 * total by {
      if total > 0 {
        RoundRatioBounds(100 * present, total);
      }
    }
    Statistics(
      |exams|, CountStatus(exams, Completed), CountStatus(exams, Scheduled), CountStatus(exams, InProgress),
      total, present, attendance,
      incidents, if present > 0 then Ratio(100 * incidents, present) else Ratio(0, 1))
  }

  /** Completed, scheduled and in-progress exams never outnumber the exams. */
  lemma {:induction false} StatusCountsBounded(exams: seq<Exam>)
    ensures CountStatus(exams, Completed) + CountStatus(exams, Scheduled) + CountStatus(exams, InProgress) <= |exams|
  {
    if exams != [] {
      StatusCountsBounded(exams[1..]);
    }
  }

  /** The totals are sums over the exams: they add up over any split of the list. */
  lemma {:induction false} SumsSplit(a: seq<Exam>, b: seq<Exam>)
    ensures SumTotal(a + b) == SumTotal(a) + SumTotal(b)
    ensures SumPresent(a + b) == SumPresent(a) + SumPresent(b)
    ensures SumIncidents(a + b) == SumIncidents(a) + SumIncidents(b)
  {
    if a != [] {
      assert (a + b)[1..] == a[1..] + b;
      SumsSplit(a[1..], b);
    } else {
      assert a + b == b;
    }
  }

  /** Exams with 0 <= present <= total give sums in the same order. */
  lemma {:induction false} PresentWithinTotal(exams: seq<Exam>)
    requires forall i :: 0 <= i < |exams| ==> 0 <= exams[i].presentStudents <= exams[i].totalStudents
    ensures 0 <= SumPresent(exams) <= SumTotal(exams)
  {
    if exams != [] {
      PresentWithinTotal(exams[1..]);
    }
  }

  /** Attendance is a percentage between 0 and 100 when no exam has more present than enrolled. */
  lemma AttendanceIsPercentage(exams: seq<Exam>)
    requires forall i :: 0 <= i < |exams| ==> 0 <= exams[i].presentStudents <= exams[i].totalStudents
    ensures 0 <= Compute(exams).averageAttendance <= 100
  {
    PresentWithinTotal(exams);
    var st := Compute(exams);
    var t := st.totalStudents;
    var a := st.averageAttendance;
    if t > 0 {
      if a < 0 {
        MulNonPositive(2 * t, a + 1);
        assert false;
      }
      if a > 100 {
        MulAtLeast(2 * t, a, 101);
        assert false;
      }
    }
  }

  /** The "next exam" card. */
  function NextExamText(st: Statistics): (text: string)
  {
    if st.scheduledExams > 0 then "Planifié" else "Aucun"
  }

  /** It reads "Planifié" exactly when some exam is scheduled. */
  lemma NextExamPlanned(exams: seq<Exam>)
    ensures NextExamText(Compute(exams)) == "Planifié" <==> exists i :: 0 <= i < |exams| && exams[i].status == Scheduled
  {
    var scheduled := Filter(exams, (e: Exam) => e.status == Scheduled);
    if |scheduled| > 0 {
      assert scheduled[0] in exams;
    }
  }
}
