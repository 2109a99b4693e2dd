/**
 * The live monitoring page of the professor (pages/professor/Monitoring.tsx):
 * the colour and text of an alert type, the search and status filter over
 * the students' live statuses, and the periodic simulated alert that rewrites
 * one student's entry. The random choices of that simulation (which student,
 * which type, the screenshot seed) are parameters here.
 */
module Monitoring {
  import opened Common
  import opened Types

  datatype StudentStatus = StudentStatus(
    student: User, status: string, recentAlert: bool, alertType: string,
    lastActivity: int, screenshotUrl: string)

  /** The badge variant of an alert type; types outside the six are "neutral". */
  function AlertColor(alertType: string): (r: string)
    ensures alertType !in AlertTypes ==> r == "neutral"
  {
    if alertType == FaceNotDetected then "alert"
    else if alertType == MultipleFaces then "professor"
    else if alertType == LookingAway then "warning"
    else if alertType == TabSwitch then "neutral"
    else if alertType == MissingCommit then "student"
    else if alertType == SuspiciousCode then "admin"
    else "neutral"
  }

  /** The French label of an alert type; types outside the six are shown as they are. */
  function AlertTypeText(alertType: string): (r: string)
    ensures alertType !in AlertTypes ==> r == alertType
  {
    if alertType == FaceNotDetected then "Visage non détecté"
    else if alertType == MultipleFaces then "Plusieurs visages"
    else if alertType == LookingAway then "Regard détourné"
    else if alertType == TabSwitch then "Changement d'onglet"
    else if alertType == MissingCommit then "Commit manquant"
    else if alertType == SuspiciousCode then "Code suspect"
    else alertType
  }

  /** Reads a label back as its type: the inverse of the labelling on the six known types. */
  function AlertTypeOfText(text: string): Option<string>
  {
    if text == "Visage non détecté" then Some(FaceNotDetected)
    else if text == "Plusieurs visages" then Some(MultipleFaces)
    else if text == "Regard détourné" then Some(LookingAway)
    else if text == "Changement d'onglet" then Some(TabSwitch)
    else if text == "Commit manquant" then Some(MissingCommit)
    else if text == "Code suspect" then Some(SuspiciousCode)
    else None
  }

  /** The label of a known type reads back as that type, and differs from the type's code. */
  lemma AlertTypeTextRoundTrip(a: string)
    requires a in AlertTypes
    ensures AlertTypeOfText(AlertTypeText(a)) == Some(a)
    ensures AlertTypeText(a) != a
  {
    if a == FaceNotDetected {
    } else if a == MultipleFaces {
    } else if a == LookingAway {
    } else if a == TabSwitch {
    } else if a == MissingCommit {
    } else {
      assert a == SuspiciousCode;
    }
  }

  /**
   * The label differs from the code for exactly the six known types, and the
   * six labels are pairwise distinct. (An unknown type spelled like a label
   * is shown as that label, so the label tells the type only among the six.)
   */
  lemma AlertTypeTextTellsType(a: string, b: string)
    ensures AlertTypeText(a) != a <==> a in AlertTypes
    ensures a in AlertTypes && b in AlertTypes && AlertTypeText(a) == AlertTypeText(b) ==> a == b
  {
    if a in AlertTypes {
      AlertTypeTextRoundTrip(a);
    }
    if a in AlertTypes && b in AlertTypes {
      AlertTypeTextRoundTrip(b);
    }
  }

  // ---------------------------------------------------------------------
  // The filtered list

  /** The name or the e-mail contains the term, all three lowercased. */
  predicate MatchesSearch(s: StudentStatus, term: string)
  {
    Contains(ToLower(s.student.name), ToLower(term)) || Contains(ToLower(s.student.email), ToLower(term))
  }

  /** The status filter: none, "online"/"offline", "alerts", or an alert type. An empty filter is falsy. */
  predicate MatchesFilter(s: StudentStatus, filter: Option<string>)
  {
    match filter
    case None => true
    case Some(f) =>
      if f == "online" then s.status == "online"
      else if f == "offline" then s.status == "offline"
      else if f == "alerts" then s.recentAlert
      else if f != "" then s.alertType == f
      else true
  }

  function FilteredStudents(students: seq<StudentStatus>, term: string, filter: Option<string>): (r: seq<StudentStatus>)
    ensures forall s :: s in r <==> s in students && MatchesSearch(s, term) && MatchesFilter(s, filter)
  {
    var r := Filter(students, (s: StudentStatus) => MatchesSearch(s, term) && MatchesFilter(s, filter));
    assert forall s :: s in r ==> s in students && MatchesSearch(s, term) && MatchesFilter(s, filter) by {
      forall s | s in r
        ensures s in students && MatchesSearch(s, term) && MatchesFilter(s, filter)
      {
        var i :| 0 <= i < |r| && r[i] == s;
      }
    }
    r
  }

  /** The list keeps its order: it distributes over any split of the students. */
  lemma FilteredKeepsOrder(a: seq<StudentStatus>, b: seq<StudentStatus>, term: string, filter: Option<string>)
    ensures FilteredStudents(a + b, term, filter) == FilteredStudents(a, term, filter) + FilteredStudents(b, term, filter)
  {
    FilterAppend(a, b, (s: StudentStatus) => MatchesSearch(s, term) && MatchesFilter(s, filter));
  }

  /** With an empty search and no filter, every student is listed, in order. */
  lemma NoCriteriaListsAll(students: seq<StudentStatus>)
    ensures FilteredStudents(students, "", None) == students
  {
    forall i | 0 <= i < |students|
      ensures MatchesSearch(students[i], "")
    {
      EmptyIsContained(ToLower(students[i].student.name));
    }
    FilterAll(students, (s: StudentStatus) => MatchesSearch(s, "") && MatchesFilter(s, None));
  }

  /** The filter values, case by case. */
  lemma FilterCases(s: StudentStatus, f: string)
    ensures MatchesFilter(s, None) && MatchesFilter(s, Some(""))
    ensures MatchesFilter(s, Some("online")) <==> s.status == "online"
    ensures MatchesFilter(s, Some("offline")) <==> s.status == "offline"
    ensures MatchesFilter(s, Some("alerts")) <==> s.recentAlert
    ensures f !in {"", "online", "offline", "alerts"} ==> (MatchesFilter(s, Some(f)) <==> s.alertType == f)
  {
  }

  // ---------------------------------------------------------------------
  // The simulated alert

  /** The four types the simulation draws from. */
  const SimulatedAlertTypes: seq<string> := [FaceNotDetected, LookingAway, MultipleFaces, TabSwitch]

  /** The rewritten entry: flagged, with the new type, activity time and screenshot. */
  function Alerted(s: StudentStatus, alertType: string, now: int, screenshotUrl: string): StudentStatus
  {
    s.(recentAlert := true, alertType := alertType, lastActivity := now, screenshotUrl := screenshotUrl)
  }

  /** A toast, by title and description. */
  datatype Toast = Toast(title: string, description: string)

  const AlertToastTitle := "Nouvelle alerte"
  const DetectedFor := " détecté pour "

  /** The tick's toast: the label of the drawn type, then the student's name. */
  function AlertToast(alertType: string, name: string): (r: Toast)
    ensures r.title == AlertToastTitle
    ensures |r.description| == |AlertTypeText(alertType)| + |DetectedFor| + |name|
    ensures r.description[|r.description| - |name|..] == name
  {
    Toast(AlertToastTitle, AlertTypeText(alertType) + DetectedFor + name)
  }

  /** The toast names the drawn type, read back from its label, and the student. */
  lemma AlertToastTellsTypeAndStudent(alertType: string, name: string)
    requires alertType in SimulatedAlertTypes
    ensures var d := AlertToast(alertType, name).description;
      var cut := |d| - |DetectedFor| - |name|;
      0 <= cut && AlertTypeOfText(d[..cut]) == Some(alertType) && d[cut..|d| - |name|] == DetectedFor
  {
    var d := AlertToast(alertType, name).description;
    var text := AlertTypeText(alertType);
    assert d == text + DetectedFor + name;
    assert d[..|text|] == text;
    assert d[|text|..|text| + |DetectedFor|] == DetectedFor;
    AlertTypeTextRoundTrip(alertType);
  }

  /** The page's state: the search term, the status filter, the students' live statuses and the toasts shown. */
  class MonitoringPage {
    var searchTerm: string
    var filter: Option<string>
    var students: seq<StudentStatus>
    var toasts: seq<Toast>

    constructor (initial: seq<StudentStatus>)
      ensures searchTerm == "" && filter == None && students == initial && toasts == []
    {
      searchTerm := "";
      filter := None;
      students := initial;
      toasts := [];
    }

    /** The list on screen. */
    function Visible(): seq<StudentStatus>
      reads this
    {
      FilteredStudents(students, searchTerm, filter)
    }

    method SetSearchTerm(term: string)
      modifies this
      ensures searchTerm == term && filter == old(filter) && students == old(students) && toasts == old(toasts)
    {
      searchTerm := term;
    }

    method SetFilter(f: Option<string>)
      modifies this
      ensures filter == f && searchTerm == old(searchTerm) && students == old(students) && toasts == old(toasts)
    {
      filter := f;
    }

    /**
     * The 15 s tick: a copy of the list with entry `index` rewritten, then a
     * "Nouvelle alerte" toast naming the type and the student. The index is
     * floor(random * length), so it is within a non-empty list; on an empty
     * list the page throws reading the student's id.
     */
    method AlertTick(index: int, alertTypeChoice: int, now: int, screenshotUrl: string)
      requires 0 <= index < |students|
      requires 0 <= alertTypeChoice < |SimulatedAlertTypes|
      modifies this
      ensures |students| == |old(students)|
      ensures students[index] == Alerted(old(students)[index], SimulatedAlertTypes[alertTypeChoice], now, screenshotUrl)
      ensures forall i :: 0 <= i < |students| && i != index ==> students[i] == old(students)[i]
      ensures searchTerm == old(searchTerm) && filter == old(filter)
      ensures toasts == old(toasts) + [AlertToast(SimulatedAlertTypes[alertTypeChoice], old(students)[index].student.name)]
    {
      var alertType := SimulatedAlertTypes[alertTypeChoice];
      var updated := students;
      updated := updated[index := Alerted(updated[index], alertType, now, screenshotUrl)];
      students := updated;
      toasts := toasts + [AlertToast(alertType, updated[index].student.name)];
    }
  }

  /**
   * After the tick, the alerted student matches the "alerts" filter and the
   * filter for its new type, and every other student's matching is as before.
   */
  lemma AlertedMatches(s: StudentStatus, t: string, now: int, url: string, term: string)
    requires t in SimulatedAlertTypes
    ensures MatchesFilter(Alerted(s, t, now, url), Some("alerts"))
    ensures MatchesFilter(Alerted(s, t, now, url), Some(t))
    ensures MatchesSearch(Alerted(s, t, now, url), term) == MatchesSearch(s, term)
  {
  }
}
