/**
 * The per-frame cheating hysteresis of the webcam socket server
 * (RFAPI_DB/flaskws.py, handle_frame).
 *
 * Every frame raises a frame counter; the first 29 frames and then every
 * third frame are "detailed" checks. Each detected face updates a stability
 * counter of "looking at the screen" evidence (the function attribute
 * looking_at_screen_count); on detailed frames, a counter of consecutive
 * not-looking checks drives the is_cheating flag, and sustained not-looking
 * runs are recorded as (start, end) frame intervals in cheating_history.
 *
 * The vision is abstracted: for each face the Haar cascades found, the frame
 * supplies how many eyes were found in it, whether the two leftmost eyes
 * passed the "level and centred" test, and whether the face centre lies in
 * the middle half of the frame (used when one eye is found).
 */
module ExamMonitor {

  /** What the cascades report about one detected face. */
  datatype FaceObs = FaceObs(eyeCount: nat, levelGaze: bool, centredForOneEye: bool)

  datatype Interval = Interval(start: int, end: int)

  /** The response emitted to the client (the re-encoded image is left out). */
  datatype Response = Response(names: seq<string>, isCheating: bool)

  function Max0(x: int): (r: int)
    ensures r >= 0 && r >= x && (x >= 0 ==> r == x)
  {
    if x > 0 then x else 0
  }

  /** The first 29 frames and every third frame afterwards are checked in detail. */
  predicate IsDetailed(t: int)
  {
    t < 30 || t % 3 == 0
  }

  // ---------------------------------------------------------------------
  // The per-face scan

  /** The loop variables of the per-face scan. */
  datatype Gaze = Gaze(count: int, looking: bool, eyesDetected: bool)

  /** One iteration of the per-face loop. */
  function FaceStep(g: Gaze, f: FaceObs): Gaze
  {
    if f.eyeCount == 0 then g
    else if f.eyeCount >= 2 then
      if f.levelGaze then
        var c := g.count + 1;
        Gaze(c, if c >= 2 then true else g.looking, true)
      else
        var c := Max0(g.count - 1);
        Gaze(c, if c < 2 then false else g.looking, true)
    else if f.centredForOneEye then Gaze(g.count, true, true)
    else g.(eyesDetected := true)
  }

  /** The whole per-face loop, from loop state g over the remaining faces. */
  function ScanFaces(g: Gaze, faces: seq<FaceObs>): (r: Gaze)
    ensures g.count >= 0 ==> r.count >= 0
    ensures g.eyesDetected ==> r.eyesDetected
    decreases |faces|
  {
    if faces == [] then g else ScanFaces(FaceStep(g, faces[0]), faces[1..])
  }

  /** The scan never makes the counter negative, and finds eyes iff some face has them. */
  lemma {:induction false} ScanFacesBounds(g: Gaze, faces: seq<FaceObs>)
    requires g.count >= 0
    ensures ScanFaces(g, faces).count >= 0
    ensures ScanFaces(g, faces).eyesDetected <==>
      g.eyesDetected || exists i :: 0 <= i < |faces| && faces[i].eyeCount > 0
    decreases |faces|
  {
    if faces != [] {
      ScanFacesBounds(FaceStep(g, faces[0]), faces[1..]);
      if exists i :: 0 <= i < |faces[1..]| && faces[1..][i].eyeCount > 0 {
        var i :| 0 <= i < |faces[1..]| && faces[1..][i].eyeCount > 0;
        assert faces[i + 1].eyeCount > 0;
      }
      if exists i :: 0 <= i < |faces| && faces[i].eyeCount > 0 {
        var i :| 0 <= i < |faces| && faces[i].eyeCount > 0;
        if i > 0 {
          assert faces[1..][i - 1].eyeCount > 0;
        }
      }
    }
  }

  /** The looking flag is only ever raised by a confirmed level gaze (count >= 2) or a centred single eye. */
  lemma {:induction false} ScanLookingNeedsEvidence(g: Gaze, faces: seq<FaceObs>)
    requires !g.looking
    ensures ScanFaces(g, faces).looking ==>
      exists i :: 0 <= i < |faces| && faces[i].eyeCount > 0
        && (faces[i].eyeCount >= 2 ==> faces[i].levelGaze)
        && (faces[i].eyeCount == 1 ==> faces[i].centredForOneEye)
    decreases |faces|
  {
    if faces != [] {
      var g1 := FaceStep(g, faces[0]);
      if g1.looking {
        assert faces[0].eyeCount > 0;
      } else {
        ScanLookingNeedsEvidence(g1, faces[1..]);
        if ScanFaces(g, faces).looking {
          var i :| 0 <= i < |faces[1..]| && faces[1..][i].eyeCount > 0
            && (faces[1..][i].eyeCount >= 2 ==> faces[1..][i].levelGaze)
            && (faces[1..][i].eyeCount == 1 ==> faces[1..][i].centredForOneEye);
          assert faces[i + 1] == faces[1..][i];
        }
      }
    }
  }

  // ---------------------------------------------------------------------
  // The frame step

  datatype MonitorState = MonitorState(
    totalFrames: int,
    lastDetailedCheck: int,
    isCheating: bool,
    history: seq<Interval>,
    consecutive: int,       // consecutive_not_looking_frames
    lookingCount: int)      // handle_frame.looking_at_screen_count

  /** A fresh ExamMonitoring, and the counter attribute as first created. */
  const Initial := MonitorState(0, 0, false, [], 0, 0)

  /** After the scan: no eyes anywhere costs 2, no face at all resets everything. */
  function SettleGaze(g: Gaze, faceDetected: bool): (r: Gaze)
    ensures !faceDetected ==> r.count == 0 && !r.looking
  {
    var c := if !g.eyesDetected then Max0(g.count - 2) else g.count;
    if !faceDetected then Gaze(0, false, g.eyesDetected) else g.(count := c)
  }

  /** Frame t is recorded: the last interval grows when it ended on frame t - 1, else a new one starts. */
  function Record(h: seq<Interval>, t: int): seq<Interval>
  {
    if h == [] || h[|h| - 1].end != t - 1 then h + [Interval(t, t)]
    else h[..|h| - 1] + [Interval(h[|h| - 1].start, t)]
  }

  /** Recording a detailed frame just after the frames seen keeps the history well formed. */
  lemma RecordWellFormed(h: seq<Interval>, t: int)
    requires t >= 1 && IsDetailed(t) && HistoryWellFormed(h, t - 1)
    ensures HistoryWellFormed(Record(h, t), t)
  {
    var h' := Record(h, t);
    if h != [] && h[|h| - 1].end == t - 1 {
      forall i, j | 0 <= i < j < |h'| ensures h'[i].end < h'[j].start {
        assert h[i].end < h[j].start;
      }
    } else {
      forall i, j | 0 <= i < j < |h'| ensures h'[i].end < h'[j].start {
        if j < |h| {
          assert h[i].end < h[j].start;
        } else {
          assert h'[i] == h[i];
        }
      }
    }
  }

  /** The detailed-check update of the cheating counters and history, at frame t = st.totalFrames. */
  function CheatingStep(st: MonitorState, looking: bool): (r: MonitorState)
    ensures r.totalFrames == st.totalFrames && r.lastDetailedCheck == st.lastDetailedCheck
    ensures r.lookingCount == st.lookingCount
    ensures r.isCheating && !st.isCheating ==> r.consecutive > 5
    ensures st.isCheating && !r.isCheating ==> r.consecutive <= 1
  {
    var t := st.totalFrames;
    if !looking then
      var c := st.consecutive + 1;
      if c > 5 then
        st.(consecutive := c, isCheating := true, history := Record(st.history, t))
      else st.(consecutive := c)
    else
      var c := Max0(st.consecutive - 2);
      st.(consecutive := c, isCheating := if c <= 1 then false else st.isCheating)
  }

  /** The cheating update neither reads nor writes the stability counter. */
  lemma CheatingStepKeepsGaze(st: MonitorState, looking: bool)
    ensures CheatingStep(st, looking) == CheatingStep(st.(lookingCount := 0), looking).(lookingCount := st.lookingCount)
  {
  }

  /** The whole of handle_frame on the counters, for one frame. */
  function FrameStep(st: MonitorState, faces: seq<FaceObs>): (r: MonitorState)
    ensures r.totalFrames == st.totalFrames + 1
    ensures !IsDetailed(r.totalFrames) ==>
      r.isCheating == st.isCheating && r.consecutive == st.consecutive && r.history == st.history
  {
    var t := st.totalFrames + 1;
    var detailed := IsDetailed(t);
    var g := SettleGaze(ScanFaces(Gaze(st.lookingCount, false, false), faces), |faces| > 0);
    var st1 := st.(totalFrames := t, lastDetailedCheck := if detailed then t else st.lastDetailedCheck,
                   lookingCount := g.count);
    if detailed then CheatingStep(st1, g.looking) else st1
  }

  /** Whether the frame was judged to be looking at the screen. */
  function Looking(st: MonitorState, faces: seq<FaceObs>): bool
  {
    SettleGaze(ScanFaces(Gaze(st.lookingCount, false, false), faces), |faces| > 0).looking
  }

  /** The response: recognised names only on detailed frames, and the current flag. */
  function Respond(st: MonitorState, faces: seq<FaceObs>, knownNames: seq<string>): (r: Response)
    ensures r.isCheating == FrameStep(st, faces).isCheating
    ensures !IsDetailed(st.totalFrames + 1) ==> r.names == []
  {
    Response(if IsDetailed(st.totalFrames + 1) then knownNames else [], FrameStep(st, faces).isCheating)
  }

  /** The number of the most recent detailed frame up to n (0 before any). */
  function MostRecentDetailed(n: nat): (r: nat)
    ensures r <= n && (n > 0 ==> r > 0 && IsDetailed(r))
    ensures forall k :: r < k <= n ==> !IsDetailed(k)
  {
    if n == 0 then 0 else if IsDetailed(n) then n else MostRecentDetailed(n - 1)
  }

  /** Intervals are ordered and disjoint, each spans detailed frames within the frames seen. */
  ghost predicate HistoryWellFormed(h: seq<Interval>, totalFrames: int)
  {
    && (forall i :: 0 <= i < |h| ==>
          1 <= h[i].start <= h[i].end <= totalFrames && IsDetailed(h[i].start) && IsDetailed(h[i].end))
    && (forall i, j :: 0 <= i < j < |h| ==> h[i].end < h[j].start)
  }

  ghost predicate Valid(st: MonitorState)
  {
    && st.totalFrames >= 0
    && st.lastDetailedCheck == MostRecentDetailed(st.totalFrames)
    && st.consecutive >= 0
    && st.lookingCount >= 0
    && (st.isCheating ==> st.consecutive >= 2 && st.history != [])
    && HistoryWellFormed(st.history, st.totalFrames)
  }

  lemma InitialValid()
    ensures Valid(Initial)
  {
  }

  /** The frame counter rises by one; the frame is detailed iff it is among the first 29 or a multiple of 3. */
  lemma FrameCounter(st: MonitorState, faces: seq<FaceObs>)
    ensures FrameStep(st, faces).totalFrames == st.totalFrames + 1
    ensures FrameStep(st, faces).lastDetailedCheck ==
      if IsDetailed(st.totalFrames + 1) then st.totalFrames + 1 else st.lastDetailedCheck
  {
  }

  /** After frame 30 a detailed check happens at least every third frame. */
  lemma DetailedCadence(n: nat)
    requires n >= 30
    ensures n - 2 <= MostRecentDetailed(n) <= n
  {
    if !IsDetailed(n) {
      assert MostRecentDetailed(n) == MostRecentDetailed(n - 1);
      if !IsDetailed(n - 1) {
        assert MostRecentDetailed(n - 1) == MostRecentDetailed(n - 2);
        assert (n - 2) % 3 == 0;
      }
    }
  }

  /** A frame with no face resets the stability counter and is never "looking". */
  lemma NoFaceNotLooking(st: MonitorState)
    ensures !Looking(st, [])
    ensures FrameStep(st, []).lookingCount == 0
    ensures IsDetailed(st.totalFrames + 1) ==>
      FrameStep(st, []).consecutive == st.consecutive + 1
  {
  }

  /** Non-detailed frames leave the verdict, its counter and the history alone. */
  lemma NonDetailedKeepsVerdict(st: MonitorState, faces: seq<FaceObs>)
    requires !IsDetailed(st.totalFrames + 1)
    ensures var r := FrameStep(st, faces);
      r.consecutive == st.consecutive && r.isCheating == st.isCheating && r.history == st.history
      && r.lastDetailedCheck == st.lastDetailedCheck
  {
  }

  /**
   * The hysteresis: on a detailed frame, not looking raises the counter by 1
   * and sets the flag once it exceeds 5; looking lowers it by 2, floored at 0,
   * and clears the flag once it is at most 1. Nothing else moves the flag.
   */
  lemma Hysteresis(st: MonitorState, faces: seq<FaceObs>)
    requires IsDetailed(st.totalFrames + 1)
    ensures var r := FrameStep(st, faces);
      var looking := Looking(st, faces);
      && (!looking ==> r.consecutive == st.consecutive + 1
                       && r.isCheating == (st.isCheating || st.consecutive + 1 > 5))
      && (looking ==> r.consecutive == Max0(st.consecutive - 2)
                      && r.isCheating == (st.isCheating && Max0(st.consecutive - 2) > 1))
  {
  }

  /** The flag turns on only on a not-looking detailed frame with the counter past 5. */
  lemma CheatingOnlyAfterSixChecks(st: MonitorState, faces: seq<FaceObs>)
    requires !st.isCheating && FrameStep(st, faces).isCheating
    ensures IsDetailed(st.totalFrames + 1) && !Looking(st, faces)
    ensures FrameStep(st, faces).consecutive >= 6
  {
  }

  /** History is appended to, or its last interval extended to the current frame when it ended on the previous one. */
  lemma HistoryUpdate(st: MonitorState, faces: seq<FaceObs>)
    requires IsDetailed(st.totalFrames + 1) && !Looking(st, faces) && st.consecutive + 1 > 5
    ensures var r := FrameStep(st, faces);
      var t := st.totalFrames + 1;
      if st.history != [] && st.history[|st.history| - 1].end == t - 1 then
        r.history == st.history[..|st.history| - 1] + [Interval(st.history[|st.history| - 1].start, t)]
      else
        r.history == st.history + [Interval(t, t)]
  {
  }

  /**
   * Once past frame 30, detailed frames are 3 apart and every interval ends
   * on a detailed frame, so the "extend" branch is never taken again: each
   * cheating check appends a new one-frame interval.
   */
  lemma NoMergeAfterFrame30(st: MonitorState, faces: seq<FaceObs>)
    requires Valid(st) && st.totalFrames >= 30
    requires IsDetailed(st.totalFrames + 1) && !Looking(st, faces) && st.consecutive + 1 > 5
    ensures FrameStep(st, faces).history == st.history + [Interval(st.totalFrames + 1, st.totalFrames + 1)]
  {
    var t := st.totalFrames + 1;
    if st.history != [] {
      var last := st.history[|st.history| - 1];
      assert IsDetailed(last.end) && t % 3 == 0;
      assert last.end != t - 1;
    }
  }

  /** Every frame keeps the invariant. */
  lemma FrameStepValid(st: MonitorState, faces: seq<FaceObs>)
    requires Valid(st)
    ensures Valid(FrameStep(st, faces))
  {
    ScanFacesBounds(Gaze(st.lookingCount, false, false), faces);
    var t := st.totalFrames + 1;
    if IsDetailed(t) && !Looking(st, faces) && st.consecutive + 1 > 5 {
      RecordWellFormed(st.history, t);
    }
  }

  // ---------------------------------------------------------------------
  // Frames that raise

  /**
   * A frame whose handling raises after the counter was raised: a payload
   * without "image" or without a comma fails before the stamp, an image that
   * does not decode fails at `frame.copy()` on a non-detailed frame and, on a
   * detailed one, after the stamp when the recognizer returns. `afterStamp`
   * says whether the stamp was reached. Nothing else is touched.
   */
  function FailedFrame(st: MonitorState, afterStamp: bool): (r: MonitorState)
    ensures r.totalFrames == st.totalFrames + 1
    ensures r.isCheating == st.isCheating && r.history == st.history
    ensures r.consecutive == st.consecutive && r.lookingCount == st.lookingCount
    ensures !afterStamp ==> r.lastDetailedCheck == st.lastDetailedCheck
  {
    var t := st.totalFrames + 1;
    st.(totalFrames := t, lastDetailedCheck := if afterStamp && IsDetailed(t) then t else st.lastDetailedCheck)
  }

  /**
   * The invariant once frames may fail: the stamp is some detailed frame seen
   * so far (or 0), no longer necessarily the latest.
   */
  ghost predicate ValidWithFailures(st: MonitorState)
  {
    && st.totalFrames >= 0
    && 0 <= st.lastDetailedCheck <= st.totalFrames
    && (st.lastDetailedCheck > 0 ==> IsDetailed(st.lastDetailedCheck))
    && st.consecutive >= 0
    && st.lookingCount >= 0
    && (st.isCheating ==> st.consecutive >= 2 && st.history != [])
    && HistoryWellFormed(st.history, st.totalFrames)
  }

  lemma ValidAllowsFailures(st: MonitorState)
    requires Valid(st)
    ensures ValidWithFailures(st)
  {
  }

  /** Failed frames and frames handled in full both keep the weaker invariant. */
  lemma FramesKeepValidWithFailures(st: MonitorState, faces: seq<FaceObs>, afterStamp: bool)
    requires ValidWithFailures(st)
    ensures ValidWithFailures(FailedFrame(st, afterStamp))
    ensures ValidWithFailures(FrameStep(st, faces))
  {
    ScanFacesBounds(Gaze(st.lookingCount, false, false), faces);
    var t := st.totalFrames + 1;
    if IsDetailed(t) && !Looking(st, faces) && st.consecutive + 1 > 5 {
      RecordWellFormed(st.history, t);
    }
  }

  /**
   * A detailed frame that fails before the stamp breaks the cadence: the stamp
   * falls behind the latest detailed frame, so Valid no longer holds.
   */
  lemma FailureBeforeStampLags(st: MonitorState)
    requires Valid(st) && IsDetailed(st.totalFrames + 1)
    ensures FailedFrame(st, false).lastDetailedCheck < MostRecentDetailed(FailedFrame(st, false).totalFrames)
    ensures !Valid(FailedFrame(st, false))
  {
  }

  // ---------------------------------------------------------------------
  // The server's objects

  class ExamMonitoring {
    var totalFrames: int
    var lastDetailedCheck: int
    var isCheating: bool
    var cheatingHistory: seq<Interval>
    var consecutiveNotLookingFrames: int

    constructor ()
      ensures totalFrames == 0 && lastDetailedCheck == 0 && !isCheating
      ensures cheatingHistory == [] && consecutiveNotLookingFrames == 0
    {
      totalFrames := 0;
      lastDetailedCheck := 0;
      isCheating := false;
      cheatingHistory := [];
      consecutiveNotLookingFrames := 0;
    }

    /** The monitor's own counters (the stability counter lives on the handler and reads as 0 here). */
    ghost function Counters(): MonitorState
      reads this
    {
      MonitorState(totalFrames, lastDetailedCheck, isCheating, cheatingHistory, consecutiveNotLookingFrames, 0)
    }

    /** The detailed-check update of the counters and history, for the current frame. */
    method DetailedCheck(looking: bool)
      modifies this
      ensures Counters() == CheatingStep(old(Counters()), looking)
    {
      if !looking {
        consecutiveNotLookingFrames := consecutiveNotLookingFrames + 1;
        if consecutiveNotLookingFrames > 5 {
          isCheating := true;
          var h := cheatingHistory;
          if h == [] || h[|h| - 1].end != totalFrames - 1 {
            cheatingHistory := h + [Interval(totalFrames, totalFrames)];
          } else {
            cheatingHistory := h[..|h| - 1] + [Interval(h[|h| - 1].start, totalFrames)];
          }
        }
      } else {
        consecutiveNotLookingFrames := Max0(consecutiveNotLookingFrames - 2);
        if consecutiveNotLookingFrames <= 1 {
          isCheating := false;
        }
      }
    }
  }

  /** handle_frame together with its function attribute and the global monitor. */
  class FrameHandler {
    var lookingAtScreenCount: int
    const monitor: ExamMonitoring

    constructor (m: ExamMonitoring)
      ensures monitor == m && lookingAtScreenCount == 0
    {
      monitor := m;
      lookingAtScreenCount := 0;
    }

    ghost function Model(): MonitorState
      reads this, monitor
    {
      MonitorState(monitor.totalFrames, monitor.lastDetailedCheck, monitor.isCheating,
                   monitor.cheatingHistory, monitor.consecutiveNotLookingFrames, lookingAtScreenCount)
    }

    method HandleFrame(faces: seq<FaceObs>, knownNames: seq<string>) returns (resp: Response)
      modifies this, monitor
      ensures Model() == FrameStep(old(Model()), faces)
      ensures resp == Respond(old(Model()), faces, knownNames)
    {
      ghost var st0 := Model();
      monitor.totalFrames := monitor.totalFrames + 1;
      var detailed := monitor.totalFrames < 30 || monitor.totalFrames % 3 == 0;
      var names: seq<string> := [];
      if detailed {
        names := knownNames;
        monitor.lastDetailedCheck := monitor.totalFrames;
      }

      var looking, eyesDetected := ScanGaze(faces);
      if !eyesDetected {
        lookingAtScreenCount := Max0(lookingAtScreenCount - 2);
      }
      if |faces| == 0 {
        looking := false;
        lookingAtScreenCount := 0;
      }
      ghost var g := SettleGaze(ScanFaces(Gaze(st0.lookingCount, false, false), faces), |faces| > 0);
      assert lookingAtScreenCount == g.count && looking == g.looking;
      ghost var st1 := st0.(totalFrames := st0.totalFrames + 1,
                            lastDetailedCheck := if detailed then st0.totalFrames + 1 else st0.lastDetailedCheck,
                            lookingCount := g.count);
      assert detailed == IsDetailed(st0.totalFrames + 1);
      assert Model() == st1;

      if detailed {
        assert monitor.Counters() == st1.(lookingCount := 0);
        monitor.DetailedCheck(looking);
        CheatingStepKeepsGaze(st1, looking);
      }
      resp := Response(names, monitor.isCheating);
    }

    /** A frame that raises: the counter has been raised, and the stamp only when reached. No response is sent. */
    method HandleFailedFrame(afterStamp: bool)
      modifies monitor
      ensures Model() == FailedFrame(old(Model()), afterStamp)
    {
      monitor.totalFrames := monitor.totalFrames + 1;
      var detailed := monitor.totalFrames < 30 || monitor.totalFrames % 3 == 0;
      if detailed && afterStamp {
        monitor.lastDetailedCheck := monitor.totalFrames;
      }
    }

    /** The per-face loop: the stability counter and the two flags it leaves. */
    method ScanGaze(faces: seq<FaceObs>) returns (looking: bool, eyesDetected: bool)
      modifies this
      ensures Gaze(lookingAtScreenCount, looking, eyesDetected)
        == ScanFaces(Gaze(old(lookingAtScreenCount), false, false), faces)
    {
      looking := false;
      eyesDetected := false;
      var i := 0;
      while i < |faces|
        invariant 0 <= i <= |faces|
        invariant ScanFaces(Gaze(lookingAtScreenCount, looking, eyesDetected), faces[i..])
               == ScanFaces(Gaze(old(lookingAtScreenCount), false, false), faces)
      {
        var f := faces[i];
        assert faces[i..][1..] == faces[i + 1..];
        if f.eyeCount > 0 {
          eyesDetected := true;
          if f.eyeCount >= 2 {
            if f.levelGaze {
              lookingAtScreenCount := lookingAtScreenCount + 1;
              if lookingAtScreenCount >= 2 {
                looking := true;
              }
            } else {
              lookingAtScreenCount := Max0(lookingAtScreenCount - 1);
              if lookingAtScreenCount < 2 {
                looking := false;
              }
            }
          } else if f.centredForOneEye {
            looking := true;
          }
        }
        i := i + 1;
      }
      assert faces[|faces|..] == [];
    }
  }
}
