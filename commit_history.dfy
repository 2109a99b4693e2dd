/**
 * The commit history panel (components/github/CommitHistory.tsx): the
 * commits of one student exam (or all of them), newest first and cut to a
 * maximum, the suspect highlight, the short SHA, and the detail dialog that
 * a click on a commit opens.
 */
module CommitHistory {
  import opened Common
  import opened Sorting
  import opened Types

  /** The component's props; an absent maximum is 5 and an absent flag is true. */
  datatype Props = Props(studentExamId: Option<string>, maxCommits: Option<int>, showSuspicious: Option<bool>)

  function MaxCommits(p: Props): int
  {
    if p.maxCommits.Some? then p.maxCommits.value else 5
  }

  function ShowSuspicious(p: Props): bool
  {
    if p.showSuspicious.Some? then p.showSuspicious.value else true
  }

  /** The id is used only when truthy: present and not the empty string. */
  predicate Kept(p: Props, c: GithubCommit)
  {
    p.studentExamId.None? || p.studentExamId.value == "" || c.studentExamId == p.studentExamId.value
  }

  function FilteredCommits(all: seq<GithubCommit>, p: Props): (r: seq<GithubCommit>)
  {
    if p.studentExamId.Some? && p.studentExamId.value != "" then
      Filter(all, (c: GithubCommit) => c.studentExamId == p.studentExamId.value)
    else all
  }

  /** The commits of the student exam, in their order; all of them without a (non-empty) id. */
  lemma FilteredCommitsSpec(all: seq<GithubCommit>, p: Props)
    ensures FilteredCommits(all, p) == Filter(all, (c: GithubCommit) => Kept(p, c))
    ensures forall c :: c in FilteredCommits(all, p) <==> c in all && Kept(p, c)
  {
    var r := FilteredCommits(all, p);
    if p.studentExamId.Some? && p.studentExamId.value != "" {
      FilterSamePredicate(all, (c: GithubCommit) => c.studentExamId == p.studentExamId.value, (c: GithubCommit) => Kept(p, c));
    } else {
      FilterAll(all, (c: GithubCommit) => Kept(p, c));
    }
    forall c | c in all && Kept(p, c)
      ensures c in r
    {
      var k :| 0 <= k < |all| && all[k] == c;
    }
  }

  /** Array.prototype.slice(0, n): a negative n counts back from the end. */
  function SliceToEnd<T>(s: seq<T>, n: int): (r: seq<T>)
    ensures r <= s
    ensures n >= 0 ==> |r| == (if n <= |s| then n else |s|)
    ensures n < 0 ==> |r| == (if |s| + n >= 0 then |s| + n else 0)
  {
    if n >= 0 then Take(s, n) else if |s| + n >= 0 then s[..|s| + n] else []
  }

  function NegatedTimestamp(c: GithubCommit): int
  {
    -c.timestamp
  }

  /** A copy of the kept commits, newest first, cut to the maximum. */
  function DisplayedCommits(all: seq<GithubCommit>, p: Props): (r: seq<GithubCommit>)
    ensures |r| <= |all|
    ensures MaxCommits(p) >= 0 ==> |r| <= MaxCommits(p)
    ensures forall i, j :: 0 <= i < j < |r| ==> r[i].timestamp >= r[j].timestamp
  {
    SliceToEnd(SortBy(FilteredCommits(all, p), NegatedTimestamp), MaxCommits(p))
  }

  /**
   * Newest first, only kept commits, no more than the maximum (all of them
   * when fewer), and no kept commit left out is newer than one shown.
   */
  lemma DisplayedCommitsSpec(all: seq<GithubCommit>, p: Props)
    ensures var r := DisplayedCommits(all, p);
      var kept := FilteredCommits(all, p);
      && (forall i :: 0 <= i < |r| ==> r[i] in all && Kept(p, r[i]))
      && (forall i, j :: 0 <= i < j < |r| ==> r[i].timestamp >= r[j].timestamp)
      && (MaxCommits(p) >= 0 ==> |r| == (if MaxCommits(p) <= |kept| then MaxCommits(p) else |kept|))
      && (forall c :: c in kept && c !in r ==> forall i :: 0 <= i < |r| ==> r[i].timestamp >= c.timestamp)
  {
    DisplayedAreKept(all, p);
    DisplayedNewestFirst(all, p);
    DisplayedNoneSkipped(all, p);
  }

  lemma DisplayedAreKept(all: seq<GithubCommit>, p: Props)
    ensures var r := DisplayedCommits(all, p);
      forall i :: 0 <= i < |r| ==> r[i] in all && Kept(p, r[i])
  {
    var kept := FilteredCommits(all, p);
    var sorted := SortBy(kept, NegatedTimestamp);
    var r := DisplayedCommits(all, p);
    FilteredCommitsSpec(all, p);
    forall i | 0 <= i < |r|
      ensures r[i] in all && Kept(p, r[i])
    {
      assert r[i] == sorted[i];
      SortByMembers(kept, NegatedTimestamp, r[i]);
    }
  }

  lemma DisplayedNewestFirst(all: seq<GithubCommit>, p: Props)
    ensures var r := DisplayedCommits(all, p);
      forall i, j :: 0 <= i < j < |r| ==> r[i].timestamp >= r[j].timestamp
  {
    var sorted := SortBy(FilteredCommits(all, p), NegatedTimestamp);
    var r := DisplayedCommits(all, p);
    forall i, j | 0 <= i < j < |r|
      ensures r[i].timestamp >= r[j].timestamp
    {
      assert r[i] == sorted[i] && r[j] == sorted[j];
      assert NegatedTimestamp(sorted[i]) <= NegatedTimestamp(sorted[j]);
    }
  }

  lemma DisplayedNoneSkipped(all: seq<GithubCommit>, p: Props)
    ensures var r := DisplayedCommits(all, p);
      forall c :: c in FilteredCommits(all, p) && c !in r ==> forall i :: 0 <= i < |r| ==> r[i].timestamp >= c.timestamp
  {
    var kept := FilteredCommits(all, p);
    var r := DisplayedCommits(all, p);
    forall c | c in kept && c !in r
      ensures forall i :: 0 <= i < |r| ==> r[i].timestamp >= c.timestamp
    {
      PrefixLeast(kept, NegatedTimestamp, r, c);
    }
  }

  /** The default maximum shows the five newest kept commits. */
  lemma DefaultShowsFive(all: seq<GithubCommit>, id: Option<string>)
    ensures |DisplayedCommits(all, Props(id, None, None))| == if |FilteredCommits(all, Props(id, None, None))| < 5 then |FilteredCommits(all, Props(id, None, None))| else 5
  {
  }

  /** The highlight, the "Suspect" badge and the "Signaler" button all appear on this condition. */
  predicate SuspectShown(c: GithubCommit, p: Props)
  {
    c.suspicious && ShowSuspicious(p)
  }

  /** Suspect marks show exactly for suspicious commits, unless the flag turns them off. */
  lemma SuspectShownSpec(c: GithubCommit, p: Props)
    ensures p.showSuspicious.None? ==> (SuspectShown(c, p) <==> c.suspicious)
    ensures p.showSuspicious == Some(false) ==> !SuspectShown(c, p)
    ensures !c.suspicious ==> !SuspectShown(c, p)
  {
  }

  /** sha.substring(0, 7). */
  function ShortSha(sha: string): (r: string)
    ensures r <= sha
    ensures |r| == if |sha| < 7 then |sha| else 7
  {
    Take(sha, 7)
  }

  /** A short SHA is a prefix of the SHA, so two commits with different short SHAs differ. */
  lemma ShortShaDistinguishes(a: string, b: string)
    requires ShortSha(a) != ShortSha(b)
    ensures a != b
  {
  }

  /** The detail dialog: the commit last clicked and whether the dialog is open. */
  class CommitDialog {
    var selectedCommit: Option<GithubCommit>
    var isDialogOpen: bool

    /** An open dialog always has a commit to show. */
    predicate Valid()
      reads this
    {
      isDialogOpen ==> selectedCommit.Some?
    }

    constructor ()
      ensures selectedCommit == None && !isDialogOpen && Valid()
    {
      selectedCommit := None;
      isDialogOpen := false;
    }

    /** handleCommitClick. */
    method OnCommitClick(c: GithubCommit)
      modifies this
      ensures selectedCommit == Some(c) && isDialogOpen && Valid()
    {
      selectedCommit := Some(c);
      isDialogOpen := true;
    }

    /** "Fermer", or the dialog closing itself: the selection is kept. */
    method Close()
      modifies this
      ensures !isDialogOpen && selectedCommit == old(selectedCommit) && Valid()
    {
      isDialogOpen := false;
    }
  }
}
