/**
 * The identity check at the exam room door (components/IdentityVerification.tsx):
 * a student id, scanned or typed, is looked up after a simulated delay; a
 * known and authorized student is shown the exam session two seconds later.
 *
 * The two timers are explicit: every lookup started waits in a queue (they
 * all have the same delay, so they fire in the order they were started) and
 * every "show the session" timer is counted. The student table, the entry
 * time text and the order in which the two kinds of timer fire are
 * parameters; the toasts are recorded by their message.
 */
module IdentityVerification {
  import opened Common

  datatype StudentData = StudentData(
    id: string, name: string, photo: string, department: string, authorized: bool,
    entryTime: Option<string>)

  /** The student table, by id. */
  type Database = map<string, StudentData>

  /** Every record is filed under its own id and carries no entry time. */
  ghost predicate WellFormed(db: Database)
  {
    forall k :: k in db ==> db[k].id == k && db[k].entryTime.None?
  }

  function Student(id: string, name: string, department: string, authorized: bool): StudentData
  {
    StudentData(id, name, "", department, authorized, None)
  }

  /** The page's table: two authorized students and one who is not (photos left out). */
  const MockStudents: Database := map[
    "12345" := Student("12345", "Thomas Dubois", "Informatique", true),
    "67890" := Student("67890", "Marie Laurent", "Sciences Économiques", true),
    "24680" := Student("24680", "Lucas Bernard", "Mathématiques", false)]

  const MissingIdToast := "Veuillez saisir ou scanner un matricule étudiant"
  const VerifiedToast := "Identité vérifiée avec succès"
  const UnauthorizedToast := "Accès non autorisé"
  const NotFoundToast := "Étudiant non trouvé"

  datatype State = State(
    studentId: string, scanMode: bool, studentData: Option<StudentData>,
    isLoading: bool, verificationComplete: bool, showExamSession: bool,
    pendingLookups: seq<string>, pendingShows: nat, toasts: seq<string>)

  const Initial := State("", true, None, false, false, false, [], 0, [])

  /** verifyStudent: a blank id only raises a toast; otherwise loading starts and a lookup is queued. */
  function Verify(st: State, id: string): State
  {
    if IsBlank(id) then st.(toasts := st.toasts + [MissingIdToast])
    else st.(isLoading := true, pendingLookups := st.pendingLookups + [id])
  }

  /** handleScan: the scanned value becomes the id, and is verified. */
  function Scan(st: State, value: string): State
  {
    Verify(st.(studentId := value), value)
  }

  /** handleManualVerify: the typed id is verified. */
  function ManualVerify(st: State): State
  {
    Verify(st, st.studentId)
  }

  function ToggleScanMode(st: State): (r: State)
    ensures r.scanMode != st.scanMode && !ShowsExamSession(r) && ResultShown(r) == NoPanel
  {
    st.(scanMode := !st.scanMode, studentData := None, verificationComplete := false, showExamSession := false)
  }

  /**
   * The lookup timer of the oldest pending lookup: the record with the entry
   * time, or nothing; an authorized student also starts the 2 s timer. The id
   * is used as it was given, not trimmed.
   */
  function LookupFires(st: State, db: Database, entryTime: string): (r: State)
    requires st.pendingLookups != []
    ensures !r.isLoading && r.verificationComplete && r.pendingLookups == st.pendingLookups[1..]
    ensures r.studentData.Some? <==> st.pendingLookups[0] in db
    ensures r.studentData.Some? ==> r.studentData.value.entryTime == Some(entryTime)
  {
    var id := st.pendingLookups[0];
    var st' := st.(pendingLookups := st.pendingLookups[1..]);
    var found :=
      if id in db then
        var withTime := db[id].(entryTime := Some(entryTime));
        if db[id].authorized then
          st'.(studentData := Some(withTime), toasts := st.toasts + [VerifiedToast], pendingShows := st.pendingShows + 1)
        else
          st'.(studentData := Some(withTime), toasts := st.toasts + [UnauthorizedToast])
      else
        st'.(studentData := None, toasts := st.toasts + [NotFoundToast]);
    found.(isLoading := false, verificationComplete := true)
  }

  /** The 2 s timer: the session is to be shown, whatever happened since. */
  function ShowFires(st: State): State
    requires st.pendingShows > 0
  {
    st.(showExamSession := true, pendingShows := st.pendingShows - 1)
  }

  /** The page renders the exam session instead of the form exactly on this condition. */
  predicate ShowsExamSession(st: State)
  {
    st.showExamSession && st.studentData.Some? && st.studentData.value.authorized
  }

  /** The result panel below the form. */
  datatype Panel = NoPanel | ResultPanel(student: StudentData) | NotFoundPanel

  function ResultShown(st: State): (p: Panel)
    ensures p.ResultPanel? ==> st.studentData == Some(p.student)
  {
    if !st.verificationComplete then NoPanel
    else if st.studentData.Some? then ResultPanel(st.studentData.value)
    else NotFoundPanel
  }

  // ---------------------------------------------------------------------
  // Properties

  /** A blank or whitespace id only raises the toast: no loading, no lookup. */
  lemma BlankIdChangesNothing(st: State, id: string)
    requires IsBlank(id)
    ensures Verify(st, id) == st.(toasts := st.toasts + [MissingIdToast])
    ensures Verify(st, id).pendingLookups == st.pendingLookups && Verify(st, id).isLoading == st.isLoading
  {
  }

  /** Any other id starts loading and queues exactly one lookup, for that id as given. */
  lemma IdQueuesLookup(st: State, id: string)
    requires !IsBlank(id)
    ensures Verify(st, id).isLoading
    ensures Verify(st, id).pendingLookups == st.pendingLookups + [id]
    ensures Verify(st, id).toasts == st.toasts
  {
  }

  /**
   * Whatever the outcome, a lookup ends loading and completes the check. A
   * known id shows its record with the entry time; an unknown one shows
   * nothing; the session timer starts exactly for an authorized student.
   */
  lemma LookupOutcome(st: State, db: Database, entryTime: string)
    requires st.pendingLookups != []
    ensures var id := st.pendingLookups[0];
      var r := LookupFires(st, db, entryTime);
      && !r.isLoading && r.verificationComplete
      && r.pendingLookups == st.pendingLookups[1..]
      && (id in db ==> r.studentData == Some(db[id].(entryTime := Some(entryTime))))
      && (id !in db ==> r.studentData.None? && ResultShown(r) == NotFoundPanel)
      && (r.pendingShows == st.pendingShows + 1 <==> id in db && db[id].authorized)
      && (r.pendingShows == st.pendingShows <==> !(id in db && db[id].authorized))
  {
  }

  /** Toggling the mode clears the result and hides the session; the id and the timers stay. */
  lemma ToggleResets(st: State)
    ensures var r := ToggleScanMode(st);
      && r.scanMode == !st.scanMode && r.studentData.None? && !r.verificationComplete
      && !r.showExamSession && !ShowsExamSession(r) && ResultShown(r) == NoPanel
      && r.pendingLookups == st.pendingLookups && r.pendingShows == st.pendingShows
  {
  }

  /**
   * The shown record always comes from the table: it is the record filed
   * under its id, with an entry time added.
   */
  ghost predicate Valid(db: Database, st: State)
  {
    st.studentData.Some? ==>
      var sd := st.studentData.value;
      sd.id in db && sd.entryTime.Some? && sd == db[sd.id].(entryTime := sd.entryTime)
  }

  /** The handlers and the session timer leave the shown record as it is or clear it. */
  lemma StepsKeepValid(db: Database, st: State, id: string)
    requires Valid(db, st)
    ensures Valid(db, Verify(st, id)) && Valid(db, Scan(st, id)) && Valid(db, ManualVerify(st))
    ensures Valid(db, ToggleScanMode(st))
    ensures st.pendingShows > 0 ==> Valid(db, ShowFires(st))
  {
    VerifyKeepsRecord(st, id);
    VerifyKeepsRecord(st.(studentId := id), id);
    VerifyKeepsRecord(st, st.studentId);
  }

  /** Verifying leaves the shown record as it is. */
  lemma VerifyKeepsRecord(st: State, id: string)
    ensures Verify(st, id).studentData == st.studentData
  {
  }

  /** A lookup shows the record filed under the id looked up, with an entry time. */
  lemma LookupKeepsValid(db: Database, st: State, entryTime: string)
    requires WellFormed(db) && st.pendingLookups != []
    ensures Valid(db, LookupFires(st, db, entryTime))
  {
    var key := st.pendingLookups[0];
    var r := LookupFires(st, db, entryTime);
    if key in db {
      assert r.studentData == Some(db[key].(entryTime := Some(entryTime)));
      assert db[key].id == key;
    } else {
      assert r.studentData.None?;
    }
  }

  /** The exam session is only ever shown to a student the table authorizes. */
  lemma SessionOnlyForAuthorized(db: Database, st: State)
    requires WellFormed(db) && Valid(db, st) && ShowsExamSession(st)
    ensures st.studentData.value.id in db && db[st.studentData.value.id].authorized
  {
  }

  /** The unauthorized student of the table never gets the session timer nor the session. */
  lemma UnauthorizedStudentStopped(st: State, entryTime: string)
    requires st.pendingLookups != [] && st.pendingLookups[0] == "24680"
    ensures var r := LookupFires(st, MockStudents, entryTime);
      r.pendingShows == st.pendingShows && !ShowsExamSession(r) && r.toasts == st.toasts + [UnauthorizedToast]
  {
    assert "24680" in MockStudents && !MockStudents["24680"].authorized;
  }

  /** The page's state, updated by its handlers and its two kinds of timer. */
  class IdentityPage {
    var studentId: string
    var scanMode: bool
    var studentData: Option<StudentData>
    var isLoading: bool
    var verificationComplete: bool
    var showExamSession: bool
    var pendingLookups: seq<string>
    var pendingShows: nat
    var toasts: seq<string>

    function Model(): State
      reads this
    {
      State(studentId, scanMode, studentData, isLoading, verificationComplete, showExamSession,
        pendingLookups, pendingShows, toasts)
    }

    constructor ()
      ensures Model() == Initial
    {
      studentId := "";
      scanMode := true;
      studentData := None;
      isLoading := false;
      verificationComplete := false;
      showExamSession := false;
      pendingLookups := [];
      pendingShows := 0;
      toasts := [];
    }

    method VerifyStudent(id: string)
      modifies this
      ensures Model() == Verify(old(Model()), id)
    {
      if IsBlank(id) {
        toasts := toasts + [MissingIdToast];
        return;
      }
      isLoading := true;
      pendingLookups := pendingLookups + [id];
    }

    method HandleScan(value: string)
      modifies this
      ensures Model() == Scan(old(Model()), value)
    {
      studentId := value;
      VerifyStudent(value);
    }

    /** The input is disabled while loading. */
    method OnIdInput(value: string)
      requires !isLoading
      modifies this
      ensures Model() == old(Model()).(studentId := value)
    {
      studentId := value;
    }

    /** The button is disabled while loading or while the id is blank. */
    method HandleManualVerify()
      requires !isLoading && !IsBlank(studentId)
      modifies this
      ensures Model() == ManualVerify(old(Model()))
    {
      VerifyStudent(studentId);
    }

    /** The mode button is disabled while loading. */
    method ToggleMode()
      requires !isLoading
      modifies this
      ensures Model() == ToggleScanMode(old(Model()))
    {
      scanMode := !scanMode;
      studentData := None;
      verificationComplete := false;
      showExamSession := false;
    }

    method OnLookupTimer(db: Database, entryTime: string)
      requires pendingLookups != []
      modifies this
      ensures Model() == LookupFires(old(Model()), db, entryTime)
    {
      var id := pendingLookups[0];
      pendingLookups := pendingLookups[1..];
      if id in db {
        var student := db[id];
        studentData := Some(student.(entryTime := Some(entryTime)));
        if student.authorized {
          toasts := toasts + [VerifiedToast];
          pendingShows := pendingShows + 1;
        } else {
          toasts := toasts + [UnauthorizedToast];
        }
      } else {
        toasts := toasts + [NotFoundToast];
        studentData := None;
      }
      isLoading := false;
      verificationComplete := true;
    }

    method OnShowTimer()
      requires pendingShows > 0
      modifies this
      ensures Model() == ShowFires(old(Model()))
    {
      showExamSession := true;
      pendingShows := pendingShows - 1;
    }
  }
}
