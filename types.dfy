/**
 * The shared records of the platform front end (types/index.ts), with
 * timestamps as integer milliseconds since the epoch.
 */
module Types {

  datatype UserRole = Student | Professor | Admin

  /** The role as it appears in routes and in the stored user. */
  function RoleName(r: UserRole): string
  {
    match r
    case Student => "student"
    case Professor => "professor"
    case Admin => "admin"
  }

  /** Distinct roles have distinct names, so "/{role}" routes never collide. */
  lemma RoleNameInjective(a: UserRole, b: UserRole)
    ensures RoleName(a) == RoleName(b) <==> a == b
  {
  }

  datatype User = User(id: string, name: string, email: string, role: UserRole)

  datatype Exam = Exam(
    id: string, title: string, description: string, duration: int,
    startTime: int, endTime: int, courseId: string, createdBy: string)

  datatype StudentExamStatus = NotStarted | InProgress | Submitted | Graded

  datatype StudentExam = StudentExam(id: string, examId: string, studentId: string, status: StudentExamStatus)

  /** The six alert types; the field itself is a plain string, as switch defaults show. */
  const FaceNotDetected := "face_not_detected"
  const MultipleFaces := "multiple_faces"
  const LookingAway := "looking_away"
  const MissingCommit := "missing_commit"
  const SuspiciousCode := "suspicious_code"
  const TabSwitch := "tab_switch"
  const AlertTypes: seq<string> := [FaceNotDetected, MultipleFaces, LookingAway, MissingCommit, SuspiciousCode, TabSwitch]

  datatype Alert = Alert(
    id: string, studentExamId: string, alertType: string, timestamp: int,
    description: string, resolved: bool)

  datatype GithubCommit = GithubCommit(
    id: string, studentExamId: string, sha: string, message: string, timestamp: int,
    additions: int, deletions: int, url: string, suspicious: bool)

  datatype AlertStats = AlertStats(alertType: string, count: int)
}
