/**
 * The exam session page of a student (pages/student/ExamSession.tsx): the
 * remaining-time display, the counter of webcam alerts fed by the face and
 * gaze callbacks, the toasts those callbacks raise, and the texts that show
 * the counter.
 */
module ExamSession {
  import opened Common

  /** The remaining time the page starts with, in minutes; nothing changes it afterwards. */
  const InitialTimeRemaining := 120

  /** formatTimeRemaining: floor(m / 60) and m % 60, each padded to two digits. */
  function FormatTimeRemaining(minutes: int): (r: string)
    ensures minutes >= 0 ==> |r| >= 5 && r[|r| - 3] == ':'
  {
    assert minutes >= 0 ==> |Pad2(IntToString(JsRem(minutes, 60)))| == 2 && |Pad2(IntToString(minutes / 60))| >= 2 by {
      if minutes >= 0 {
        PaddedValue(minutes % 60);
        PaddedValue(minutes / 60);
      }
    }
    Pad2(IntToString(minutes / 60)) + ":" + Pad2(IntToString(JsRem(minutes, 60)))
  }

  /** The page opens on "02:00". */
  lemma InitialDisplay()
    ensures FormatTimeRemaining(InitialTimeRemaining) == "02:00"
  {
  }

  /**
   * The text reads as a time of m minutes: "H:MM" with the minutes exactly
   * two digits below 60, the hours at least two digits, all else digits, and
   * reading both back gives m.
   */
  predicate ShowsTime(t: string, m: int)
  {
    && |t| >= 5 && t[|t| - 3] == ':'
    && (forall i :: 0 <= i < |t| && i != |t| - 3 ==> '0' <= t[i] <= '9')
    && DigitsValue(t[|t| - 2..]) < 60
    && DigitsValue(t[..|t| - 3]) * 60 + DigitsValue(t[|t| - 2..]) == m
  }

  /** Any non-negative time is displayed so that it reads back. */
  lemma FormatTimeRemainingReadBack(m: nat)
    ensures ShowsTime(FormatTimeRemaining(m), m)
  {
    var hs, rs := Pad2(NatToString(m / 60)), Pad2(NatToString(m % 60));
    assert FormatTimeRemaining(m) == hs + ":" + rs;
    PaddedValue(m / 60);
    PaddedValue(m % 60);
    ColonJoin(hs, rs, m);
  }

  /** The padded text of n: digits, at least two of them (exactly two below 100), reading back as n. */
  lemma PaddedValue(n: nat)
    ensures var s := Pad2(NatToString(n));
      && |s| >= 2 && (n < 100 ==> |s| == 2)
      && (forall i :: 0 <= i < |s| ==> '0' <= s[i] <= '9')
      && DigitsValue(s) == n
  {
    var s0 := NatToString(n);
    assert DigitsValue(s0) == n by {
      NatToStringValue(n);
    }
    assert n < 100 ==> |s0| <= 2 by {
      if n < 100 {
        NatToStringTwoDigits(n);
      }
    }
    Pad2Value(s0);
  }

  /** Two digit strings joined by a colon, the second of two digits below 60, read back as a time. */
  lemma ColonJoin(hs: string, rs: string, m: int)
    requires |hs| >= 2 && |rs| == 2
    requires forall i :: 0 <= i < |hs| ==> '0' <= hs[i] <= '9'
    requires forall i :: 0 <= i < |rs| ==> '0' <= rs[i] <= '9'
    requires DigitsValue(rs) < 60 && DigitsValue(hs) * 60 + DigitsValue(rs) == m
    ensures ShowsTime(hs + ":" + rs, m)
  {
    ColonParts(hs, rs);
    ColonDigits(hs, rs);
  }

  /** Around the colon, the joined text splits back into its two parts. */
  lemma ColonParts(hs: string, rs: string)
    requires |rs| == 2
    ensures var t := hs + ":" + rs;
      |t| == |hs| + 3 && t[|t| - 3] == ':' && t[..|t| - 3] == hs && t[|t| - 2..] == rs
  {
    var t := hs + ":" + rs;
    assert t[..|t| - 3] == hs;
    assert t[|t| - 2..] == rs;
  }

  /** Joining two digit strings with a colon leaves digits everywhere but at the colon. */
  lemma ColonDigits(hs: string, rs: string)
    requires |rs| == 2
    requires forall i :: 0 <= i < |hs| ==> '0' <= hs[i] <= '9'
    requires forall i :: 0 <= i < |rs| ==> '0' <= rs[i] <= '9'
    ensures var t := hs + ":" + rs;
      forall i :: 0 <= i < |t| && i != |t| - 3 ==> '0' <= t[i] <= '9'
  {
    var t := hs + ":" + rs;
    forall i | 0 <= i < |t| && i != |t| - 3
      ensures '0' <= t[i] <= '9'
    {
      if i < |hs| {
        assert t[i] == hs[i];
      } else {
        assert t[i] == rs[i - |hs| - 1];
      }
    }
  }

  // ---------------------------------------------------------------------
  // The webcam alert counter

  const FaceToast := "Alerte!"
  const GazeToast := "Attention!"

  /** The page state the two callbacks touch: the counter and the toasts shown, by title. */
  datatype Session = Session(webcamAlerts: nat, toasts: seq<string>)

  /** handleFaceDetection: a missed face counts one alert and raises a toast. */
  function FaceDetection(s: Session, detected: bool): (r: Session)
    ensures r.webcamAlerts == s.webcamAlerts + (if detected then 0 else 1)
    ensures |r.toasts| == |s.toasts| + (if detected then 0 else 1) && r.toasts[..|s.toasts|] == s.toasts
    ensures !detected ==> r.toasts[|s.toasts|] == FaceToast
  {
    assert (s.toasts + [FaceToast])[..|s.toasts|] == s.toasts;
    if detected then s else Session(s.webcamAlerts + 1, s.toasts + [FaceToast])
  }

  /** handleLookingAway: a toast only; the counter is left as it is. */
  function LookingAway(s: Session, lookingAway: bool): (r: Session)
    ensures r.webcamAlerts == s.webcamAlerts
  {
    if lookingAway then s.(toasts := s.toasts + [GazeToast]) else s
  }

  /** The number of missed faces in a run of face reports. */
  function Misses(reports: seq<bool>): (n: nat)
    ensures n <= |reports|
  {
    if reports == [] then 0 else Misses(reports[..|reports| - 1]) + (if reports[|reports| - 1] then 0 else 1)
  }

  /** handleFaceDetection called once per report, in order. */
  function FaceReports(s: Session, reports: seq<bool>): (r: Session)
    ensures r.webcamAlerts >= s.webcamAlerts
    ensures |r.toasts| - |s.toasts| == r.webcamAlerts - s.webcamAlerts
    ensures r.webcamAlerts - s.webcamAlerts <= |reports|
  {
    if reports == [] then s else FaceDetection(FaceReports(s, reports[..|reports| - 1]), reports[|reports| - 1])
  }

  /**
   * After a run of face reports the counter has grown by the number of missed
   * faces, never shrinking, with one face toast per miss added.
   */
  lemma {:induction false} FaceReportsCount(s: Session, reports: seq<bool>)
    ensures FaceReports(s, reports).webcamAlerts == s.webcamAlerts + Misses(reports)
    ensures FaceReports(s, reports).webcamAlerts >= s.webcamAlerts
    ensures |FaceReports(s, reports).toasts| == |s.toasts| + Misses(reports)
    ensures FaceReports(s, reports).toasts[..|s.toasts|] == s.toasts
  {
    if reports != [] {
      var init := reports[..|reports| - 1];
      FaceReportsCount(s, init);
      var before := FaceReports(s, init);
      assert before.toasts[..|s.toasts|] == s.toasts;
      if !reports[|reports| - 1] {
        assert (before.toasts + [FaceToast])[..|s.toasts|] == before.toasts[..|s.toasts|];
      }
    }
  }

  /** Reports of a detected face change nothing. */
  lemma {:induction false} DetectedFacesChangeNothing(s: Session, reports: seq<bool>)
    requires forall i :: 0 <= i < |reports| ==> reports[i]
    ensures FaceReports(s, reports) == s
  {
    if reports != [] {
      DetectedFacesChangeNothing(s, reports[..|reports| - 1]);
    }
  }

  /** The page's state. */
  class SessionPage {
    var timeRemaining: int
    var webcamAlerts: nat
    var toasts: seq<string>

    function Model(): Session
      reads this
    {
      Session(webcamAlerts, toasts)
    }

    constructor ()
      ensures timeRemaining == InitialTimeRemaining && Model() == Session(0, [])
    {
      timeRemaining := InitialTimeRemaining;
      webcamAlerts := 0;
      toasts := [];
    }

    method OnFaceDetection(detected: bool)
      modifies this
      ensures Model() == FaceDetection(old(Model()), detected)
      ensures timeRemaining == old(timeRemaining)
    {
      if !detected {
        webcamAlerts := webcamAlerts + 1;
        toasts := toasts + [FaceToast];
      }
    }

    method OnLookingAway(lookingAway: bool)
      modifies this
      ensures Model() == LookingAway(old(Model()), lookingAway)
      ensures timeRemaining == old(timeRemaining)
    {
      if lookingAway {
        toasts := toasts + [GazeToast];
      }
    }
  }

  // ---------------------------------------------------------------------
  // The texts showing the counter

  /** The badge next to "Surveillance vidéo": absent at 0. */
  function AlertBadge(n: nat): (r: Option<string>)
    ensures r.None? <==> n == 0
  {
    if n > 0 then Some(NatToString(n) + " alerte" + PluralS(n)) else None
  }

  /** The words of the warning after the count: all three take the plural together. */
  function WarningWords(n: nat): string
  {
    " comportement" + PluralS(n) + " suspect" + PluralS(n) + " détecté" + PluralS(n)
  }

  /** The warning shown from the first alert on. */
  function WarningText(n: nat): (r: Option<string>)
    ensures r.None? <==> n == 0
  {
    if n > 0 then Some(NatToString(n) + WarningWords(n) + ". Ces incidents sont enregistrés et peuvent affecter votre évaluation.")
    else None
  }

  /** One alert reads in the singular. */
  lemma SingularTexts()
    ensures AlertBadge(1) == Some("1 alerte")
    ensures WarningWords(1) == " comportement suspect détecté"
  {
    assert DigitChar(1) == '1' && NatToString(1) == "1";
    assert "1" + " alerte" + "" == "1 alerte";
    assert " comportement" + "" + " suspect" + "" + " détecté" + "" == " comportement suspect détecté";
  }

  /** From two alerts on, every word is in the plural. */
  lemma PluralTexts(n: nat)
    requires n > 1
    ensures AlertBadge(n) == Some(NatToString(n) + " alertes")
    ensures WarningWords(n) == " comportements suspects détectés"
  {
    assert " comportement" + "s" + " suspect" + "s" + " détecté" + "s" == " comportements suspects détectés";
    assert NatToString(n) + " alerte" + "s" == NatToString(n) + " alertes";
  }
}
