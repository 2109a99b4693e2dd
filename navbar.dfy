/**
 * The top bar (components/layout/Navbar.tsx): the notification list drawn
 * from the alerts, the avatar's initials, the text of each alert type and
 * the unread label. The alert list is a parameter; the bar renders nothing
 * without a signed-in user.
 */
module Navbar {
  import opened Common
  import opened Types

  // ---------------------------------------------------------------------
  // Notifications

  predicate Unresolved(a: Alert)
  {
    !a.resolved
  }

  /** The unresolved alerts, in their order, the first three. */
  function Notifications(alerts: seq<Alert>): (r: seq<Alert>)
    ensures |r| <= 3
    ensures forall i :: 0 <= i < |r| ==> r[i] in alerts && !r[i].resolved
  {
    Take(Filter(alerts, Unresolved), 3)
  }

  /**
   * At most three notifications, each an unresolved alert of the list, in
   * the list's order; three unless fewer alerts are unresolved, and all of
   * them then.
   */
  lemma NotificationsSpec(alerts: seq<Alert>)
    ensures var r := Notifications(alerts);
      var open := Filter(alerts, Unresolved);
      && |r| == (if |open| < 3 then |open| else 3)
      && r <= open
      && (forall i :: 0 <= i < |r| ==> r[i] in alerts && !r[i].resolved)
      && (|open| <= 3 ==> forall a :: a in alerts && !a.resolved ==> a in r)
  {
    var open := Filter(alerts, Unresolved);
    forall a | a in alerts && !a.resolved
      ensures a in open
    {
      var k :| 0 <= k < |alerts| && alerts[k] == a;
    }
  }

  /**
   * Alerts after the first three unresolved ones never displace them:
   * appending any alerts leaves the notifications as they were.
   */
  lemma NotificationsIgnoreLater(alerts: seq<Alert>, later: seq<Alert>)
    requires CountIf(alerts, Unresolved) >= 3
    ensures Notifications(alerts + later) == Notifications(alerts)
  {
    FilterAppend(alerts, later, Unresolved);
    var open := Filter(alerts, Unresolved);
    assert (open + Filter(later, Unresolved))[..3] == open[..3];
  }

  /** The bell carries its dot exactly when some alert is unresolved. */
  predicate BellDot(alerts: seq<Alert>)
  {
    |Notifications(alerts)| > 0
  }

  lemma BellDotSpec(alerts: seq<Alert>)
    ensures BellDot(alerts) <==> exists i :: 0 <= i < |alerts| && !alerts[i].resolved
  {
    var open := Filter(alerts, Unresolved);
    if |open| > 0 {
      assert open[0] in alerts;
    }
  }

  /** The count beside the heading: "n non lu", with an "s" for more than one. */
  function UnreadLabel(n: nat): (r: string)
    ensures r == NatToString(n) + " non lus" <==> n > 1
    ensures r == NatToString(n) + " non lu" <==> n <= 1
  {
    var r := NatToString(n) + " non lu" + PluralS(n);
    assert |NatToString(n) + " non lus"| != |NatToString(n) + " non lu"|;
    r
  }

  // ---------------------------------------------------------------------
  // Alert texts

  /** The notification title of an alert type; any other type is a system alert. */
  function AlertText(alertType: string): (r: string)
    ensures alertType !in AlertTypes ==> r == "Alerte système"
  {
    if alertType == FaceNotDetected then "Visage non détecté"
    else if alertType == LookingAway then "Regard détourné de l'écran"
    else if alertType == MultipleFaces then "Plusieurs visages détectés"
    else if alertType == MissingCommit then "Commit manquant"
    else if alertType == SuspiciousCode then "Code suspect détecté"
    else if alertType == TabSwitch then "Changement d'onglet"
    else "Alerte système"
  }

  /** Reads a title back as its type: the inverse of the titling on the six known types. */
  function AlertTypeOfTitle(title: string): Option<string>
  {
    if title == "Visage non détecté" then Some(FaceNotDetected)
    else if title == "Regard détourné de l'écran" then Some(LookingAway)
    else if title == "Plusieurs visages détectés" then Some(MultipleFaces)
    else if title == "Commit manquant" then Some(MissingCommit)
    else if title == "Code suspect détecté" then Some(SuspiciousCode)
    else if title == "Changement d'onglet" then Some(TabSwitch)
    else None
  }

  /** The title of a known type reads back as that type; the system alert's title reads back as none. */
  lemma AlertTextRoundTrip(a: string)
    requires a in AlertTypes
    ensures AlertTypeOfTitle(AlertText(a)) == Some(a)
    ensures AlertTypeOfTitle("Alerte système") == None
  {
    if a == FaceNotDetected {
    } else if a == LookingAway {
    } else if a == MultipleFaces {
    } else if a == MissingCommit {
    } else if a == SuspiciousCode {
    } else {
      assert a == TabSwitch;
    }
  }

  /** The six known types have six distinct titles, none of them the system alert's. */
  lemma AlertTextTellsType(a: string, b: string)
    requires a in AlertTypes && b in AlertTypes
    ensures AlertText(a) != "Alerte système"
    ensures AlertText(a) == AlertText(b) ==> a == b
  {
    AlertTextRoundTrip(a);
    AlertTextRoundTrip(b);
  }

  // ---------------------------------------------------------------------
  // Initials

  /** `part[0]`, where the missing first character of an empty part joins as "". */
  function FirstChar(part: string): (r: string)
    ensures part == [] ==> r == []
    ensures part != [] ==> r == [part[0]]
  {
    Take(part, 1)
  }

  function FirstChars(parts: seq<string>): (r: seq<string>)
    ensures |r| == |parts| && forall k :: 0 <= k < |parts| ==> r[k] == FirstChar(parts[k])
  {
    seq(|parts|, k requires 0 <= k < |parts| => FirstChar(parts[k]))
  }

  /** getInitials: the first character of each space-separated part, joined and uppercased. */
  function Initials(name: string): (r: string)
    ensures ' ' !in name ==> r == ToUpper(FirstChar(name))
  {
    assert ' ' !in name ==> FirstChars(Split(name, ' ')) == [FirstChar(name)] by {
      if ' ' !in name {
        SplitNoSep(name, ' ');
        assert FirstChars([name])[0] == FirstChar(name);
      }
    }
    assert Concat([FirstChar(name)]) == FirstChar(name);
    ToUpper(Concat(FirstChars(Split(name, ' '))))
  }

  /** Joining words that hold no space and splitting the result again gives the words back. */
  lemma {:induction false} SplitJoin(words: seq<string>)
    requires |words| >= 1
    requires forall k :: 0 <= k < |words| ==> ' ' !in words[k]
    ensures Split(Join(words, ' '), ' ') == words
  {
    if |words| == 1 {
      SplitNoSep(words[0], ' ');
    } else {
      SplitJoin(words[1..]);
      SplitNoSep(words[0], ' ');
      SplitAtSep(words[0], Join(words[1..], ' '), ' ');
      assert words == [words[0]] + words[1..];
    }
  }

  /** The first letters of non-empty words, uppercased, in order. */
  function UpperFirsts(words: seq<string>): (r: string)
    requires forall k :: 0 <= k < |words| ==> words[k] != []
    ensures |r| == |words|
  {
    seq(|words|, k requires 0 <= k < |words| => UpperChar(words[k][0]))
  }

  lemma {:induction false} ConcatFirsts(words: seq<string>)
    requires forall k :: 0 <= k < |words| ==> words[k] != []
    ensures ToUpper(Concat(FirstChars(words))) == UpperFirsts(words)
  {
    if words != [] {
      ConcatFirsts(words[1..]);
      assert FirstChars(words)[1..] == FirstChars(words[1..]);
      assert ToUpper(Concat(FirstChars(words))) == ToUpper([words[0][0]] + Concat(FirstChars(words[1..])));
      assert UpperFirsts(words) == [UpperChar(words[0][0])] + UpperFirsts(words[1..]);
    }
  }

  /**
   * For a name made of non-empty words separated by single spaces, the
   * initials are the words' first letters, uppercased, one per word.
   */
  lemma InitialsOfWords(words: seq<string>)
    requires |words| >= 1
    requires forall k :: 0 <= k < |words| ==> words[k] != [] && ' ' !in words[k]
    ensures Initials(Join(words, ' ')) == UpperFirsts(words)
  {
    SplitJoin(words);
    ConcatFirsts(words);
  }

  /** A doubled space makes an empty part, which adds nothing to the initials. */
  lemma DoubleSpaceAddsNothing(a: string, b: string)
    ensures Initials(a + "  " + b) == Initials(a + " " + b)
  {
    assert a + "  " + b == a + [' '] + ([' '] + b);
    assert a + " " + b == a + [' '] + b;
    SplitAtSep(a, [' '] + b, ' ');
    SplitAtSep([], b, ' ');
    assert [] + [' '] + b == [' '] + b;
    SplitAtSep(a, b, ' ');
    var pa, pb := Split(a, ' '), Split(b, ' ');
    assert Split([], ' ') == [[]];
    ConcatFirstsAppend(pa, [[]] + pb);
    ConcatFirstsAppend([[]], pb);
    ConcatFirstsAppend(pa, pb);
  }

  lemma {:induction false} ConcatFirstsAppend(a: seq<string>, b: seq<string>)
    ensures Concat(FirstChars(a + b)) == Concat(FirstChars(a)) + Concat(FirstChars(b))
  {
    if a != [] {
      ConcatFirstsAppend(a[1..], b);
      assert (a + b)[1..] == a[1..] + b;
      assert FirstChars(a + b)[1..] == FirstChars(a[1..] + b);
      assert FirstChars(a)[1..] == FirstChars(a[1..]);
    } else {
      assert a + b == b;
    }
  }

  // ---------------------------------------------------------------------
  // The bar

  /** What the bar shows: the avatar's initials, the bell's dot, the unread label and the titles listed. */
  datatype View = View(initials: string, bellDot: bool, unread: string, titles: seq<string>)

  function Render(user: Option<User>, alerts: seq<Alert>): (r: Option<View>)
    ensures r.None? <==> user.None?
  {
    if user.None? then None
    else
      var ns := Notifications(alerts);
      Some(View(Initials(user.value.name), |ns| > 0, UnreadLabel(|ns|),
        seq(|ns|, i requires 0 <= i < |ns| => AlertText(ns[i].alertType))))
  }

  /** For a user, one title per notification, in order, and the dot exactly when some are listed. */
  lemma RenderSpec(u: User, alerts: seq<Alert>)
    ensures var v := Render(Some(u), alerts).value;
      var ns := Notifications(alerts);
      && |v.titles| == |ns| <= 3
      && (forall i :: 0 <= i < |ns| ==> v.titles[i] == AlertText(ns[i].alertType))
      && (v.bellDot <==> ns != [])
      && (v.unread == NatToString(|ns|) + " non lus" <==> |ns| > 1)
  {
  }
}
