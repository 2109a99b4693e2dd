/**
 * The exam-history records of types/exam.ts, with dates as integer
 * milliseconds since the epoch, and the filter object the history view reads.
 */
module ExamTypes {

  datatype Course = Course(id: string, code: string, name: string)

  datatype Severity = Low | Medium | High

  datatype FraudIncident = FraudIncident(
    id: string, studentId: string, studentName: string, description: string,
    timestamp: int, severity: Severity, resolved: bool)

  datatype ExamStatus = Scheduled | InProgress | Completed | Cancelled

  /** The status as the string the filter select stores. */
  function StatusName(s: ExamStatus): string
  {
    match s
    case Scheduled => "scheduled"
    case InProgress => "in-progress"
    case Completed => "completed"
    case Cancelled => "cancelled"
  }

  datatype Exam = Exam(
    id: string, title: string, course: Course, date: int,
    startTime: string, endTime: string, duration: int, status: ExamStatus,
    totalStudents: int, presentStudents: int, fraudIncidents: seq<FraudIncident>)

  /** The keys of ExamFilterOptions. */
  datatype FilterKey = CourseKey | DateRangeKey | StatusKey | HasFraudKey

  /** A JavaScript value as the filter handlers receive it. */
  datatype JsValue = Undefined | Str(s: string) | Bool(b: bool) | DateRange(start: string, end: string)

  /** JavaScript truthiness of those values: "", undefined and false are falsy. */
  predicate Truthy(v: JsValue)
  {
    match v
    case Undefined => false
    case Str(s) => s != ""
    case Bool(b) => b
    case DateRange(_, _) => true
  }

  /** ExamFilterOptions: the keys present, each with its value. */
  type Filters = map<FilterKey, JsValue>
}
