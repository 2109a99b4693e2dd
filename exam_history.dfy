/**
 * The exam history view (components/exams/ExamHistory.tsx): the course list
 * offered by the filter panel, and the effect that narrows the exams by the
 * active filters and sorts them, most recent first.
 */
module ExamHistory {
  import opened Common
  import opened Sorting
  import opened ExamTypes
  import opened ExamFilters

  // ---------------------------------------------------------------------
  // The course list: Array.from(new Map(exams.map(e => [e.course.id, e.course])).values())

  function CourseIds(cs: seq<Course>): (ids: seq<string>)
    ensures |ids| == |cs| && forall i :: 0 <= i < |cs| ==> ids[i] == cs[i].id
  {
    seq(|cs|, i requires 0 <= i < |cs| => cs[i].id)
  }

  function ExamCourseIds(exams: seq<Exam>): (ids: seq<string>)
    ensures |ids| == |exams| && forall i :: 0 <= i < |exams| ==> ids[i] == exams[i].course.id
  {
    seq(|exams|, i requires 0 <= i < |exams| => exams[i].course.id)
  }

  ghost predicate DistinctIds(cs: seq<Course>)
  {
    forall i, j :: 0 <= i < j < |cs| ==> cs[i].id != cs[j].id
  }

  /** Map.prototype.set: an existing key keeps its place and takes the new value; a new key goes last. */
  function SetCourse(cs: seq<Course>, c: Course): (r: seq<Course>)
    ensures |r| == |cs| || |r| == |cs| + 1
    ensures |r| > 0
  {
    if cs == [] then [c]
    else if cs[0].id == c.id then [c] + cs[1..]
    else [cs[0]] + SetCourse(cs[1..], c)
  }

  /** After the set, the ids are the old ones plus c's, still distinct, and only c's entry changed. */
  lemma {:induction false} SetCourseSpec(cs: seq<Course>, c: Course)
    requires DistinctIds(cs)
    ensures var r := SetCourse(cs, c);
      && (forall id :: id in CourseIds(r) <==> id in CourseIds(cs) || id == c.id)
      && DistinctIds(r)
      && (forall j :: 0 <= j < |r| ==> r[j] == c || (j < |cs| && r[j] == cs[j] && r[j].id != c.id))
  {
    var r := SetCourse(cs, c);
    if cs == [] {
      assert CourseIds(r) == [c.id];
    } else if cs[0].id == c.id {
      assert CourseIds(r) == [c.id] + CourseIds(cs)[1..];
      assert CourseIds(cs) == [c.id] + CourseIds(cs)[1..];
    } else {
      SetCourseSpec(cs[1..], c);
      SetCourseStepIds(cs, c);
      SetCourseStepEntries(cs, c);
      SetCourseStepDistinct(cs, c);
    }
  }

  /** The recursive case, for the ids. */
  lemma SetCourseStepIds(cs: seq<Course>, c: Course)
    requires cs != [] && cs[0].id != c.id
    requires forall id :: id in CourseIds(SetCourse(cs[1..], c)) <==> id in CourseIds(cs[1..]) || id == c.id
    ensures forall id :: id in CourseIds(SetCourse(cs, c)) <==> id in CourseIds(cs) || id == c.id
  {
    var rest := SetCourse(cs[1..], c);
    assert SetCourse(cs, c) == [cs[0]] + rest;
    assert CourseIds(SetCourse(cs, c)) == [cs[0].id] + CourseIds(rest);
    assert CourseIds(cs) == [cs[0].id] + CourseIds(cs[1..]);
  }

  /** The recursive case, for the entries. */
  lemma SetCourseStepEntries(cs: seq<Course>, c: Course)
    requires cs != [] && cs[0].id != c.id
    requires var rest := SetCourse(cs[1..], c);
      forall j :: 0 <= j < |rest| ==> rest[j] == c || (j < |cs| - 1 && rest[j] == cs[1..][j] && rest[j].id != c.id)
    ensures var r := SetCourse(cs, c);
      forall j :: 0 <= j < |r| ==> r[j] == c || (j < |cs| && r[j] == cs[j] && r[j].id != c.id)
  {
    var r, rest := SetCourse(cs, c), SetCourse(cs[1..], c);
    forall j | 0 <= j < |r|
      ensures r[j] == c || (j < |cs| && r[j] == cs[j] && r[j].id != c.id)
    {
      if j > 0 {
        assert r[j] == rest[j - 1];
      }
    }
  }

  /** The recursive case, for distinctness: the head's id is neither c's nor any later one. */
  lemma SetCourseStepDistinct(cs: seq<Course>, c: Course)
    requires cs != [] && cs[0].id != c.id && DistinctIds(cs)
    requires DistinctIds(SetCourse(cs[1..], c))
    requires var rest := SetCourse(cs[1..], c);
      forall j :: 0 <= j < |rest| ==> rest[j] == c || (j < |cs| - 1 && rest[j] == cs[1..][j] && rest[j].id != c.id)
    ensures DistinctIds(SetCourse(cs, c))
  {
    var r, rest := SetCourse(cs, c), SetCourse(cs[1..], c);
    assert r == [cs[0]] + rest;
    forall i, j | 0 <= i < j < |r|
      ensures r[i].id != r[j].id
    {
      assert r[j] == rest[j - 1];
      if i == 0 {
        if rest[j - 1] != c {
          assert rest[j - 1] == cs[j];
        }
      } else {
        assert r[i] == rest[i - 1];
      }
    }
  }

  /** One entry per course id, in order of first appearance, each the course last set for it. */
  function Courses(exams: seq<Exam>): (cs: seq<Course>)
    ensures |cs| <= |exams|
    ensures cs == [] <==> exams == []
  {
    if exams == [] then [] else SetCourse(Courses(exams[..|exams| - 1]), exams[|exams| - 1].course)
  }

  /** The course of the last exam carrying the id. */
  function LastCourse(exams: seq<Exam>, id: string): Course
    requires id in ExamCourseIds(exams)
  {
    var n := |exams|;
    if exams[n - 1].course.id == id then exams[n - 1].course
    else
      assert ExamCourseIds(exams) == ExamCourseIds(exams[..n - 1]) + [exams[n - 1].course.id];
      LastCourse(exams[..n - 1], id)
  }

  /**
   * The list holds exactly one entry per distinct course id of the exams,
   * and the entry for an id is the course of the last exam with that id.
   */
  lemma {:induction false} CoursesSpec(exams: seq<Exam>)
    ensures var cs := Courses(exams);
      && DistinctIds(cs)
      && (forall id :: id in CourseIds(cs) <==> id in ExamCourseIds(exams))
      && (forall j :: 0 <= j < |cs| ==> cs[j].id in ExamCourseIds(exams) && cs[j] == LastCourse(exams, cs[j].id))
  {
    if exams != [] {
      var n := |exams|;
      var init := exams[..n - 1];
      var c := exams[n - 1].course;
      CoursesSpec(init);
      var prev := Courses(init);
      var cs := Courses(exams);
      assert cs == SetCourse(prev, c);
      assert ExamCourseIds(exams) == ExamCourseIds(init) + [c.id];
      assert DistinctIds(cs) && forall id :: id in CourseIds(cs) <==> id in CourseIds(prev) || id == c.id by {
        SetCourseSpec(prev, c);
      }
      CoursesStepLast(exams);
    }
  }

  /** Setting a course never reorders the ids already listed: they stay a prefix. */
  lemma SetCourseKeepsOrder(cs: seq<Course>, c: Course)
    ensures CourseIds(cs) <= CourseIds(SetCourse(cs, c))
  {
    var r := SetCourse(cs, c);
    SetCourseKeepsIds(cs, c);
    assert CourseIds(cs) == CourseIds(r)[..|cs|];
  }

  /** The position-wise form: entry i of the result has the id of entry i of the input. */
  lemma {:induction false} SetCourseKeepsIds(cs: seq<Course>, c: Course)
    ensures forall i :: 0 <= i < |cs| ==> SetCourse(cs, c)[i].id == cs[i].id
  {
    if cs != [] && cs[0].id != c.id {
      SetCourseKeepsIds(cs[1..], c);
      var r := SetCourse(cs, c);
      assert r == [cs[0]] + SetCourse(cs[1..], c);
      forall i | 1 <= i < |cs|
        ensures r[i].id == cs[i].id
      {
        assert r[i] == SetCourse(cs[1..], c)[i - 1];
        assert cs[i] == cs[1..][i - 1];
      }
    }
  }

  /**
   * The courses come in order of first appearance: one more exam leaves the
   * ids listed so far in place, as a prefix of the new list.
   */
  lemma CoursesKeepOrder(exams: seq<Exam>)
    requires exams != []
    ensures CourseIds(Courses(exams[..|exams| - 1])) <= CourseIds(Courses(exams))
  {
    SetCourseKeepsOrder(Courses(exams[..|exams| - 1]), exams[|exams| - 1].course);
  }

  /** The recursive case, for the entries: each is the course last set for its id. */
  lemma CoursesStepLast(exams: seq<Exam>)
    requires exams != []
    requires var init := exams[..|exams| - 1];
      var prev := Courses(init);
      && DistinctIds(prev)
      && forall j :: 0 <= j < |prev| ==> prev[j].id in ExamCourseIds(init) && prev[j] == LastCourse(init, prev[j].id)
    ensures var cs := Courses(exams);
      forall j :: 0 <= j < |cs| ==> cs[j].id in ExamCourseIds(exams) && cs[j] == LastCourse(exams, cs[j].id)
  {
    var n := |exams|;
    var init := exams[..n - 1];
    var c := exams[n - 1].course;
    var prev := Courses(init);
    var cs := Courses(exams);
    assert ExamCourseIds(exams) == ExamCourseIds(init) + [c.id];
    SetCourseSpec(prev, c);
    forall j | 0 <= j < |cs|
      ensures cs[j].id in ExamCourseIds(exams) && cs[j] == LastCourse(exams, cs[j].id)
    {
      if cs[j] != c {
        assert cs[j] == prev[j];
      }
    }
  }

  // ---------------------------------------------------------------------
  // The filter effect

  predicate CourseActive(f: Filters)
  {
    CourseKey in f && Truthy(f[CourseKey])
  }

  predicate StatusActive(f: Filters)
  {
    StatusKey in f && Truthy(f[StatusKey])
  }

  /** `filters.hasFraud !== undefined` */
  predicate FraudActive(f: Filters)
  {
    HasFraudKey in f && f[HasFraudKey] != Undefined
  }

  predicate CourseMatches(f: Filters, e: Exam)
  {
    CourseKey in f && f[CourseKey] == Str(e.course.id)
  }

  predicate StatusMatches(f: Filters, e: Exam)
  {
    StatusKey in f && f[StatusKey] == Str(StatusName(e.status))
  }

  predicate HasIncidents(e: Exam)
  {
    |e.fraudIncidents| > 0
  }

  predicate NoIncidents(e: Exam)
  {
    |e.fraudIncidents| == 0
  }

  /** The constraints of the filters applied so far, stage by stage. */
  predicate AfterCourse(f: Filters, e: Exam)
  {
    CourseActive(f) ==> CourseMatches(f, e)
  }

  predicate AfterStatus(f: Filters, e: Exam)
  {
    AfterCourse(f, e) && (StatusActive(f) ==> StatusMatches(f, e))
  }

  /** An exam is shown when it passes all three active filters. */
  predicate Selected(f: Filters, e: Exam)
  {
    && AfterStatus(f, e)
    && (FraudActive(f) ==> if Truthy(f[HasFraudKey]) then HasIncidents(e) else NoIncidents(e))
  }

  function NegatedDate(e: Exam): int
  {
    -e.date
  }

  /** What the view shows for the exams and the filters. */
  function HistoryView(exams: seq<Exam>, f: Filters): (r: seq<Exam>)
    ensures |r| <= |exams|
    ensures forall i, j :: 0 <= i < j < |r| ==> r[i].date >= r[j].date
  {
    SortBy(Filter(exams, (e: Exam) => Selected(f, e)), NegatedDate)
  }

  /**
   * The effect: a copy of the exams, narrowed by each active filter in turn,
   * then sorted in place by date, most recent first.
   */
  method ApplyFilters(exams: seq<Exam>, filters: Filters) returns (result: seq<Exam>)
    ensures result == HistoryView(exams, filters)
  {
    result := exams;
    if CourseActive(filters) {
      result := Filter(result, (e: Exam) => CourseMatches(filters, e));
      FilterSamePredicate(exams, (e: Exam) => CourseMatches(filters, e), (e: Exam) => AfterCourse(filters, e));
    } else {
      FilterAll(exams, (e: Exam) => AfterCourse(filters, e));
    }
    assert result == Filter(exams, (e: Exam) => AfterCourse(filters, e));
    if StatusActive(filters) {
      result := Filter(result, (e: Exam) => StatusMatches(filters, e));
      FilterFilter(exams, (e: Exam) => AfterCourse(filters, e), (e: Exam) => StatusMatches(filters, e),
        (e: Exam) => AfterStatus(filters, e));
    } else {
      FilterSamePredicate(exams, (e: Exam) => AfterCourse(filters, e), (e: Exam) => AfterStatus(filters, e));
    }
    assert result == Filter(exams, (e: Exam) => AfterStatus(filters, e));
    if FraudActive(filters) {
      if Truthy(filters[HasFraudKey]) {
        result := Filter(result, HasIncidents);
        FilterFilter(exams, (e: Exam) => AfterStatus(filters, e), HasIncidents, (e: Exam) => Selected(filters, e));
      } else {
        result := Filter(result, NoIncidents);
        FilterFilter(exams, (e: Exam) => AfterStatus(filters, e), NoIncidents, (e: Exam) => Selected(filters, e));
      }
    } else {
      FilterSamePredicate(exams, (e: Exam) => AfterStatus(filters, e), (e: Exam) => Selected(filters, e));
    }
    result := SortBy(result, NegatedDate);
  }

  /**
   * The view holds exactly the selected exams, each as often as in the list
   * it came from, with dates never increasing.
   */
  lemma HistoryViewSpec(exams: seq<Exam>, f: Filters)
    ensures var r := HistoryView(exams, f);
      && (forall e :: e in r <==> e in exams && Selected(f, e))
      && multiset(r) <= multiset(exams)
      && multiset(r) == multiset(Filter(exams, (e: Exam) => Selected(f, e)))
      && (forall e :: multiset(r)[e] == if Selected(f, e) then multiset(exams)[e] else 0)
      && (forall i, j :: 0 <= i < j < |r| ==> r[i].date >= r[j].date)
  {
    var kept := Filter(exams, (e: Exam) => Selected(f, e));
    var r := HistoryView(exams, f);
    FilterSubMultiset(exams, (e: Exam) => Selected(f, e));
    forall e
      ensures multiset(r)[e] == if Selected(f, e) then multiset(exams)[e] else 0
    {
      FilterMultiplicity(exams, (e: Exam) => Selected(f, e), e);
    }
    forall e
      ensures e in r <==> e in exams && Selected(f, e)
    {
      SortByMembers(kept, NegatedDate, e);
      if e in exams && Selected(f, e) {
        var i :| 0 <= i < |exams| && exams[i] == e;
      }
    }
    forall i, j | 0 <= i < j < |r|
      ensures r[i].date >= r[j].date
    {
      assert NegatedDate(r[i]) <= NegatedDate(r[j]);
    }
  }

  /** A non-empty course filter alone keeps exactly the exams of that course. */
  lemma CourseFilterSelects(id: string, e: Exam)
    requires id != ""
    ensures Selected(map[CourseKey := Str(id)], e) <==> e.course.id == id
  {
  }

  /** A non-empty status filter alone keeps exactly the exams with that status. */
  lemma StatusFilterSelects(s: ExamStatus, e: Exam)
    ensures Selected(map[StatusKey := Str(StatusName(s))], e) <==> e.status == s
  {
    if e.status != s {
      StatusNameInjective(e.status, s);
    }
  }

  lemma StatusNameInjective(a: ExamStatus, b: ExamStatus)
    requires a != b
    ensures StatusName(a) != StatusName(b)
  {
    assert StatusName(a)[1] != StatusName(b)[1];
  }

  /** hasFraud true keeps exams with incidents, false those without, and no key keeps all. */
  lemma FraudFilterSelects(e: Exam)
    ensures Selected(map[HasFraudKey := Bool(true)], e) <==> |e.fraudIncidents| > 0
    ensures Selected(map[HasFraudKey := Bool(false)], e) <==> |e.fraudIncidents| == 0
    ensures Selected(map[], e)
  {
  }

  /**
   * Through the panel, "Sans fraude" shows the same exams as "Tous les
   * examens": the fraud-free branch of the view is never reached from it.
   */
  lemma SansFraudeShowsAll(exams: seq<Exam>, f: Filters)
    ensures HistoryView(exams, HandleFilterChange(f, HasFraudKey, FraudSelectValue("false")))
         == HistoryView(exams, HandleFilterChange(f, HasFraudKey, FraudSelectValue("")))
  {
    SansFraudeNeverStored(f);
  }
}
