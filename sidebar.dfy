/**
 * The navigation sidebar (components/layout/Sidebar.tsx): the fixed list of
 * links, filtered by the signed-in user's role, the active link, and the
 * header and role badge.
 */
module Sidebar {
  import opened Common
  import opened Types

  datatype NavItem = NavItem(name: string, path: string, roles: seq<UserRole>)

  /** The links every role may see, pointing into the user's own area. */
  function SharedItems(role: UserRole): seq<NavItem>
  {
    var r := RoleName(role);
    [ NavItem("Tableau de bord", "/" + r, [Student, Professor, Admin]),
      NavItem("Examens", "/" + r + "/exams", [Student, Professor]),
      NavItem("Mon profil", "/" + r + "/profile", [Student, Professor, Admin]) ]
  }

  const StudentItems: seq<NavItem> := [
    NavItem("Sessions d'examen", "/student/sessions", [Student]),
    NavItem("Commits", "/student/commits", [Student])]

  const ProfessorItems: seq<NavItem> := [
    NavItem("Commits", "/student/commits", [Professor]),
    NavItem("Créer un examen", "/professor/create-exam", [Professor]),
    NavItem("Surveillance", "/professor/monitoring", [Professor]),
    NavItem("Alertes", "/professor/alerts", [Professor])]

  const AdminItems: seq<NavItem> := [
    NavItem("Gestion des etudiants", "/admin/users", []),
    NavItem("Vérification de diplômes", "/admin/documents", []),
    NavItem("Paramètres du système", "/admin/settings", []),
    NavItem("Surveillance vidéo", "/admin/video-monitoring", [Admin])]

  /** The list of links for a user of the given role, in the page's order. */
  function NavItems(role: UserRole): (items: seq<NavItem>)
    ensures |items| == 13
  {
    SharedItems(role) + StudentItems + ProfessorItems + AdminItems
  }

  predicate VisibleTo(role: UserRole, item: NavItem)
  {
    role in item.roles
  }

  /** The links of a list that a role sees, in order. */
  function Visible(items: seq<NavItem>, role: UserRole): (r: seq<NavItem>)
    ensures |r| <= |items|
  {
    if items == [] then []
    else (if VisibleTo(role, items[0]) then [items[0]] else []) + Visible(items[1..], role)
  }

  /** A link is visible exactly when it is in the list and lists the role. */
  lemma {:induction false} VisibleMembers(items: seq<NavItem>, role: UserRole, item: NavItem)
    ensures item in Visible(items, role) <==> item in items && VisibleTo(role, item)
  {
    if items != [] {
      VisibleMembers(items[1..], role, item);
      assert items == [items[0]] + items[1..];
    }
  }

  /** The visible links of a concatenation are those of each part, in order. */
  lemma {:induction false} VisibleAppend(a: seq<NavItem>, b: seq<NavItem>, role: UserRole)
    ensures Visible(a + b, role) == Visible(a, role) + Visible(b, role)
  {
    if a != [] {
      assert (a + b)[0] == a[0] && (a + b)[1..] == a[1..] + b;
      VisibleAppend(a[1..], b, role);
      var head := if VisibleTo(role, a[0]) then [a[0]] else [];
      assert Visible(a + b, role) == head + Visible(a[1..] + b, role);
      assert Visible(a, role) == head + Visible(a[1..], role);
    } else {
      assert a + b == b;
    }
  }

  /** Nothing is rendered without a user; otherwise the links whose roles include the user's. */
  function VisibleItems(user: Option<User>): (r: Option<seq<NavItem>>)
    ensures r.None? <==> user.None?
    ensures r.Some? ==> |r.value| <= |NavItems(user.value.role)|
  {
    if user.None? then None
    else Some(Visible(NavItems(user.value.role), user.value.role))
  }

  /** Exactly the links listing the role, in the list's order; those listing no role never show. */
  lemma VisibleItemsSpec(u: User)
    ensures var vis := VisibleItems(Some(u)).value;
      && (forall item :: item in vis <==> item in NavItems(u.role) && u.role in item.roles)
      && (forall item :: item in vis ==> item.roles != [])
    ensures VisibleItems(None).None?
  {
    forall item
      ensures item in Visible(NavItems(u.role), u.role) <==> item in NavItems(u.role) && u.role in item.roles
    {
      VisibleMembers(NavItems(u.role), u.role, item);
    }
  }

  /** The three shared links point into the user's own area. */
  lemma SharedPaths(role: UserRole)
    ensures NavItems(role)[0].path == "/" + RoleName(role)
    ensures NavItems(role)[1].path == "/" + RoleName(role) + "/exams"
    ensures NavItems(role)[2].path == "/" + RoleName(role) + "/profile"
  {
  }

  function Paths(items: seq<NavItem>): (ps: seq<string>)
    ensures |ps| == |items| && forall i :: 0 <= i < |items| ==> ps[i] == items[i].path
  {
    seq(|items|, i requires 0 <= i < |items| => items[i].path)
  }

  /** The paths each role sees, in order. */
  function VisiblePaths(role: UserRole): seq<string>
  {
    Paths(Visible(NavItems(role), role))
  }

  /** Which links of each group a role sees. */
  lemma SharedVisible(role: UserRole)
    ensures var s := SharedItems(role);
      Visible(s, role) == if role == Admin then [s[0], s[2]] else s
  {
    var s := SharedItems(role);
    assert s[1..][1..][1..] == [];
    assert Visible(s[2..], role) == [s[2]];
    assert s == [s[0], s[1], s[2]];
  }

  lemma StudentVisible(role: UserRole)
    ensures Visible(StudentItems, role) == if role == Student then StudentItems else []
  {
  }

  lemma ProfessorVisible(role: UserRole)
    ensures Visible(ProfessorItems, role) == if role == Professor then ProfessorItems else []
  {
  }

  lemma AdminVisible(role: UserRole)
    ensures Visible(AdminItems, role) == if role == Admin then [AdminItems[3]] else []
  {
  }

  /** A role sees the visible links of each group, group after group. */
  lemma VisibleByGroup(role: UserRole)
    ensures Visible(NavItems(role), role)
      == Visible(SharedItems(role), role) + Visible(StudentItems, role) + Visible(ProfessorItems, role) + Visible(AdminItems, role)
  {
    var a, b, c, d := SharedItems(role), StudentItems, ProfessorItems, AdminItems;
    VisibleAppend(a + b + c, d, role);
    VisibleAppend(a + b, c, role);
    VisibleAppend(a, b, role);
  }

  lemma PathsAppend(a: seq<NavItem>, b: seq<NavItem>)
    ensures Paths(a + b) == Paths(a) + Paths(b)
  {
  }

  /** The links each role sees, group by group. */
  lemma StudentSees(role: UserRole)
    requires role == Student
    ensures Visible(NavItems(role), role) == SharedItems(role) + StudentItems
  {
    var s := SharedItems(role);
    VisibleByGroup(role);
    assert Visible(s, role) == s by { SharedVisible(role); }
    assert Visible(StudentItems, role) == StudentItems by { StudentVisible(role); }
    assert Visible(ProfessorItems, role) == [] by { ProfessorVisible(role); }
    assert Visible(AdminItems, role) == [] by { AdminVisible(role); }
    AppendEmpty(s + StudentItems);
  }

  lemma ProfessorSees(role: UserRole)
    requires role == Professor
    ensures Visible(NavItems(role), role) == SharedItems(role) + ProfessorItems
  {
    var s := SharedItems(role);
    VisibleByGroup(role);
    assert Visible(s, role) == s by { SharedVisible(role); }
    assert Visible(StudentItems, role) == [] by { StudentVisible(role); }
    assert Visible(ProfessorItems, role) == ProfessorItems by { ProfessorVisible(role); }
    assert Visible(AdminItems, role) == [] by { AdminVisible(role); }
    AppendEmpty(s);
    AppendEmpty(s + ProfessorItems);
  }

  lemma AdminSees(role: UserRole)
    requires role == Admin
    ensures var s := SharedItems(role);
      Visible(NavItems(role), role) == [s[0], s[2], AdminItems[3]]
  {
    var s := SharedItems(role);
    VisibleByGroup(role);
    assert Visible(s, role) == [s[0], s[2]] by { SharedVisible(role); }
    assert Visible(StudentItems, role) == [] by { StudentVisible(role); }
    assert Visible(ProfessorItems, role) == [] by { ProfessorVisible(role); }
    assert Visible(AdminItems, role) == [AdminItems[3]] by { AdminVisible(role); }
    AppendEmpty([s[0], s[2]]);
  }

  lemma AppendEmpty(a: seq<NavItem>)
    ensures a + [] == a
  {
  }

  /** The paths of the three shared links, spelled out for each role. */
  function SharedPathsOf(role: UserRole): seq<string>
  {
    match role
    case Student => ["/student", "/student/exams", "/student/profile"]
    case Professor => ["/professor", "/professor/exams", "/professor/profile"]
    case Admin => ["/admin", "/admin/exams", "/admin/profile"]
  }

  /** The shared links point to the user's dashboard, exams and profile. */
  lemma SharedItemPaths(role: UserRole)
    ensures Paths(SharedItems(role)) == SharedPathsOf(role)
  {
    match role
    case Student => RolePaths(role, "/student", "/student/exams", "/student/profile");
    case Professor => RolePaths(role, "/professor", "/professor/exams", "/professor/profile");
    case Admin => RolePaths(role, "/admin", "/admin/exams", "/admin/profile");
  }

  /** The three shared paths of a role, given its home path spelled out. */
  lemma RolePaths(role: UserRole, home: string, exams: string, profile: string)
    requires home == "/" + RoleName(role) && exams == home + "/exams" && profile == home + "/profile"
    ensures Paths(SharedItems(role)) == [home, exams, profile]
  {
  }

  /** The paths each role sees, in order. */
  function ExpectedPaths(role: UserRole): seq<string>
  {
    match role
    case Student => ["/student", "/student/exams", "/student/profile", "/student/sessions", "/student/commits"]
    case Professor => ["/professor", "/professor/exams", "/professor/profile", "/student/commits",
                       "/professor/create-exam", "/professor/monitoring", "/professor/alerts"]
    case Admin => ["/admin", "/admin/profile", "/admin/video-monitoring"]
  }

  /** What a student sees. */
  lemma StudentPaths(role: UserRole)
    requires role == Student
    ensures VisiblePaths(role) == ExpectedPaths(role)
  {
    var s := SharedItems(role);
    assert VisiblePaths(role) == Paths(s) + Paths(StudentItems) by {
      StudentSees(role);
      PathsAppend(s, StudentItems);
    }
    assert Paths(s) == SharedPathsOf(role) by {
      SharedItemPaths(role);
    }
    StudentExpected();
  }

  /** The student's expected paths: the shared ones, then those of the student's group. */
  lemma StudentExpected()
    ensures ExpectedPaths(Student) == SharedPathsOf(Student) + Paths(StudentItems)
  {
    var ps := Paths(StudentItems);
    assert ps[0] == StudentItems[0].path && ps[1] == StudentItems[1].path;
  }

  /** What a professor sees: the "Commits" link leads to the student route. */
  lemma ProfessorPaths(role: UserRole)
    requires role == Professor
    ensures VisiblePaths(role) == ExpectedPaths(role)
  {
    var s := SharedItems(role);
    assert VisiblePaths(role) == Paths(s) + Paths(ProfessorItems) by {
      ProfessorSees(role);
      PathsAppend(s, ProfessorItems);
    }
    assert Paths(s) == SharedPathsOf(role) by {
      SharedItemPaths(role);
    }
    ProfessorExpected();
  }

  /** The professor's expected paths: the shared ones, then those of the professor's group. */
  lemma ProfessorExpected()
    ensures ExpectedPaths(Professor) == SharedPathsOf(Professor) + Paths(ProfessorItems)
  {
    var ps := Paths(ProfessorItems);
    assert ps[0] == ProfessorItems[0].path && ps[1] == ProfessorItems[1].path;
    assert ps[2] == ProfessorItems[2].path && ps[3] == ProfessorItems[3].path;
  }

  /** The paths of three links. */
  lemma ThreePaths(a: NavItem, b: NavItem, c: NavItem)
    ensures Paths([a, b, c]) == [a.path, b.path, c.path]
  {
  }

  /** The admin's expected paths: the first and last shared ones, then the video monitoring link. */
  lemma AdminExpected()
    ensures var sp := SharedPathsOf(Admin);
      ExpectedPaths(Admin) == [sp[0], sp[2], AdminItems[3].path]
  {
  }

  /** What an admin sees: neither exams nor the three links that list no role. */
  lemma AdminPaths(role: UserRole)
    requires role == Admin
    ensures VisiblePaths(role) == ExpectedPaths(role)
  {
    var s := SharedItems(role);
    var v := [s[0], s[2], AdminItems[3]];
    assert Visible(NavItems(role), role) == v by {
      AdminSees(role);
    }
    assert Paths(v) == [s[0].path, s[2].path, AdminItems[3].path] by {
      ThreePaths(s[0], s[2], AdminItems[3]);
    }
    assert s[0].path == SharedPathsOf(role)[0] && s[2].path == SharedPathsOf(role)[2] by {
      SharedItemPaths(role);
    }
    AdminExpected();
  }

  /** Each role sees exactly its expected paths, in order. */
  lemma VisiblePathsSpec(role: UserRole)
    ensures VisiblePaths(role) == ExpectedPaths(role)
  {
    match role
    case Student => StudentPaths(role);
    case Professor => ProfessorPaths(role);
    case Admin => AdminPaths(role);
  }

  /** The paths a role sees are pairwise distinct, so they can serve as the links' keys. */
  lemma VisiblePathsDistinct(role: UserRole)
    ensures var ps := VisiblePaths(role);
      forall i, j :: 0 <= i < j < |ps| ==> ps[i] != ps[j]
  {
    VisiblePathsSpec(role);
    ExpectedPathsDistinct(role);
  }

  lemma ExpectedPathsDistinct(role: UserRole)
    ensures var ps := ExpectedPaths(role);
      forall i, j :: 0 <= i < j < |ps| ==> ps[i] != ps[j]
  {
    var ps := ExpectedPaths(role);
    forall i, j | 0 <= i < j < |ps|
      ensures ps[i] != ps[j]
    {
      if |ps[i]| == |ps[j]| {
        assert ps[i][|ps[i]| - 2] != ps[j][|ps[j]| - 2];
      }
    }
  }

  /** A link is highlighted exactly when the location is its path. */
  predicate IsActive(pathname: string, item: NavItem)
  {
    pathname == item.path
  }

  /** At most one link is active at a time, since the visible paths are distinct. */
  lemma AtMostOneActive(role: UserRole, pathname: string, i: nat, j: nat)
    requires i < j < |VisiblePaths(role)|
    ensures !(pathname == VisiblePaths(role)[i] && pathname == VisiblePaths(role)[j])
  {
    VisiblePathsDistinct(role);
  }

  const AppName := "Academy Guard"

  /** The header shows the full name when open and the initials when folded. */
  function Header(isOpen: bool): (r: string)
    ensures isOpen ==> r == AppName
    ensures !isOpen ==> AppName[7] == ' ' && r == [AppName[0], AppName[8]]
  {
    if isOpen then "Academy Guard" else "AG"
  }

  /** The role badge under the user's name. */
  function RoleLabel(role: UserRole): (r: string)
    ensures role == Student <==> r == "Étudiant"
    ensures role == Professor <==> r == "Professeur"
    ensures role == Admin <==> r == "Administrateur"
  {
    match role
    case Student => "Étudiant"
    case Professor => "Professeur"
    case Admin => "Administrateur"
  }
}
