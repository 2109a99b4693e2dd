/**
 * The client-side violation detector of components/AntiCheatDetector.jsx.
 *
 * Sensors (visibility, blur, keydown, context menu, a 1 s probe of the window
 * geometry and of console timing, intercepted console methods) hand a
 * (kind, details) signal to one aggregator, handleViolation, which gates it
 * on "active" and "armed", debounces it globally (1000 ms, any kind), counts
 * it, reports it to the sink and to onViolation, shows a warning, and blocks
 * the exam when the count reaches maxViolations.
 *
 * The module has two layers. The functions over DetectorState are the
 * specification: each says what one handler or timer does to the whole
 * detector, and the lemmas below them state the detector's promises. The
 * class Detector keeps the same state in fields the handlers update in place,
 * and each of its methods is proved to perform exactly the matching step.
 *
 * Time is the `now` argument (Date.now(), in ms). The three timers (arming
 * after 2000 ms, the probe every 1000 ms, hiding the warning after 3000 ms)
 * are the methods ArmingTimerFires, ProbeTick and WarningTimerFires, which
 * the environment calls when the timer is due.
 */
module AntiCheat {
  import opened Common

  // ---------------------------------------------------------------------
  // Data

  datatype ViolationKind =
    | TabSwitch | WindowBlur | AltTab | DevTools | CopyPaste | ContextMenu | KeyboardShortcut

  /** The warning text of each kind (VIOLATION_TYPES). */
  function Label(k: ViolationKind): string
  {
    match k
    case TabSwitch => "Changement d'onglet détecté"
    case WindowBlur => "Perte de focus de la fenêtre"
    case AltTab => "Utilisation d'Alt+Tab détectée"
    case DevTools => "Console développeur ouverte"
    case CopyPaste => "Tentative de copier/coller"
    case ContextMenu => "Menu contextuel utilisé"
    case KeyboardShortcut => "Raccourci clavier bloqué"
  }

  datatype DetailValue = Text(text: string) | Flag(flag: bool) | Number(number: int)
  type Details = map<string, DetailValue>

  /** What logViolation sends to the sink and onViolation receives. */
  datatype ViolationData = ViolationData(
    userId: string, examId: string, violationType: ViolationKind, timestamp: int, details: Details)

  datatype BlockPayload = Violation(data: ViolationData) | Forced

  datatype ConsoleMethod = Log | Warn | Error | Info | Debug

  function ConsoleMethodName(m: ConsoleMethod): string
  {
    match m
    case Log => "log"
    case Warn => "warn"
    case Error => "error"
    case Info => "info"
    case Debug => "debug"
  }

  /** The five methods patched, in the order the source lists them. */
  const ConsoleMethods: seq<ConsoleMethod> := [Log, Warn, Error, Info, Debug]

  /** Everything the detector does that the outside world sees, in order. */
  datatype Event =
    | Logged(data: ViolationData)              // POST to the reporting sink
    | ViolationNotified(data: ViolationData)   // onViolation(data)
    | ExamBlocked(count: int, payload: BlockPayload)  // onExamBlocked(count, payload)
    | ConsoleWritten(consoleMethod: ConsoleMethod)    // the original console method ran

  /** The props: identifiers, the threshold, and which callbacks were passed. */
  datatype Config = Config(
    userId: string, examId: string, maxViolations: int, showWarnings: bool,
    hasOnViolation: bool, hasOnExamBlocked: bool)

  /** A console slot holds either the browser's own method or the detector's wrapper. */
  datatype ConsoleFn = Native | Intercepting

  datatype Console = Console(log: ConsoleFn, warn: ConsoleFn, error: ConsoleFn, info: ConsoleFn, debug: ConsoleFn)

  function Get(c: Console, m: ConsoleMethod): ConsoleFn
  {
    match m
    case Log => c.log
    case Warn => c.warn
    case Error => c.error
    case Info => c.info
    case Debug => c.debug
  }

  function Set(c: Console, m: ConsoleMethod, f: ConsoleFn): (r: Console)
    ensures Get(r, m) == f
    ensures forall m' :: m' != m ==> Get(r, m') == Get(c, m')
  {
    match m
    case Log => c.(log := f)
    case Warn => c.(warn := f)
    case Error => c.(error := f)
    case Info => c.(info := f)
    case Debug => c.(debug := f)
  }

  const AllNative := Console(Native, Native, Native, Native, Native)
  const AllIntercepting := Console(Intercepting, Intercepting, Intercepting, Intercepting, Intercepting)
  const NativeStash: map<ConsoleMethod, ConsoleFn> :=
    map[Log := Native, Warn := Native, Error := Native, Info := Native, Debug := Native]

  const DebounceMs := 1000
  const ArmingDelayMs := 2000
  const WarningMs := 3000
  const GeometryThreshold := 160

  /**
   * The whole detector: state, refs, the live effect run's console stash and
   * geometry latch, the pending timers, and the events emitted so far.
   */
  datatype DetectorState = DetectorState(
    isActive: bool,
    isInitialized: bool,            // isInitialized.current: armed
    armingDue: Option<int>,         // the pending 2000 ms arming timer
    violations: int,
    isBlocked: bool,
    lastViolationTime: int,         // lastViolationTime.current
    showWarning: bool,
    warningMessage: string,
    hideDue: seq<int>,              // pending 3000 ms hide timers, never cancelled
    devtoolsOpen: bool,             // the devtools.open latch of the current effect run
    console: Console,
    stash: map<ConsoleMethod, ConsoleFn>,  // originalMethods of the current effect run
    events: seq<Event>)

  /** The invariant every reachable detector state satisfies. */
  ghost predicate Valid(st: DetectorState)
  {
    && st.violations >= 0
    && (st.isInitialized ==> st.isActive)
    && (st.armingDue.Some? <==> st.isActive && !st.isInitialized)
    && (st.devtoolsOpen ==> st.isInitialized)
    && st.console == (if st.isActive then AllIntercepting else AllNative)
    && st.stash == (if st.isActive then NativeStash else map[])
  }

  // ---------------------------------------------------------------------
  // Console interception (the forEach loops of the devtools effect)

  datatype ConsoleSetup = ConsoleSetup(console: Console, stash: map<ConsoleMethod, ConsoleFn>)

  /** For each method in ms: stash the current one, install the wrapper. */
  function PatchFrom(c: Console, stash: map<ConsoleMethod, ConsoleFn>, ms: seq<ConsoleMethod>): ConsoleSetup
    decreases |ms|
  {
    if ms == [] then ConsoleSetup(c, stash)
    else PatchFrom(Set(c, ms[0], Intercepting), stash[ms[0] := Get(c, ms[0])], ms[1..])
  }

  /** For each stashed method in ms: put the stashed original back. */
  function RestoreFrom(c: Console, stash: map<ConsoleMethod, ConsoleFn>, ms: seq<ConsoleMethod>): Console
    decreases |ms|
  {
    if ms == [] then c
    else RestoreFrom(if ms[0] in stash then Set(c, ms[0], stash[ms[0]]) else c, stash, ms[1..])
  }

  /** Patching installs the wrapper everywhere and stashes exactly the previous methods. */
  lemma PatchAll(c: Console)
    ensures PatchFrom(c, map[], ConsoleMethods).console == AllIntercepting
    ensures PatchFrom(c, map[], ConsoleMethods).stash ==
      map[Log := c.log, Warn := c.warn, Error := c.error, Info := c.info, Debug := c.debug]
  {
    var c1 := Set(c, Log, Intercepting);
    var c2 := Set(c1, Warn, Intercepting);
    var c3 := Set(c2, Error, Intercepting);
    var c4 := Set(c3, Info, Intercepting);
    var c5 := Set(c4, Debug, Intercepting);
    assert PatchFrom(c, map[], ConsoleMethods) == PatchFrom(c1, map[Log := c.log], [Warn, Error, Info, Debug]);
    assert PatchFrom(c1, map[Log := c.log], [Warn, Error, Info, Debug])
        == PatchFrom(c2, map[Log := c.log, Warn := c.warn], [Error, Info, Debug]);
    assert PatchFrom(c2, map[Log := c.log, Warn := c.warn], [Error, Info, Debug])
        == PatchFrom(c3, map[Log := c.log, Warn := c.warn, Error := c.error], [Info, Debug]);
    assert PatchFrom(c3, map[Log := c.log, Warn := c.warn, Error := c.error], [Info, Debug])
        == PatchFrom(c5, map[Log := c.log, Warn := c.warn, Error := c.error, Info := c.info, Debug := c.debug], []);
  }

  /** Restoring a full stash puts each stashed method back, in any prior console. */
  lemma RestoreAll(c: Console, stash: map<ConsoleMethod, ConsoleFn>)
    requires Log in stash && Warn in stash && Error in stash && Info in stash && Debug in stash
    ensures RestoreFrom(c, stash, ConsoleMethods) ==
      Console(stash[Log], stash[Warn], stash[Error], stash[Info], stash[Debug])
  {
    var c1 := Set(c, Log, stash[Log]);
    var c2 := Set(c1, Warn, stash[Warn]);
    var c3 := Set(c2, Error, stash[Error]);
    var c4 := Set(c3, Info, stash[Info]);
    var c5 := Set(c4, Debug, stash[Debug]);
    assert RestoreFrom(c, stash, ConsoleMethods) == RestoreFrom(c1, stash, [Warn, Error, Info, Debug]);
    assert RestoreFrom(c1, stash, [Warn, Error, Info, Debug]) == RestoreFrom(c2, stash, [Error, Info, Debug]);
    assert RestoreFrom(c2, stash, [Error, Info, Debug]) == RestoreFrom(c4, stash, [Debug]);
    assert RestoreFrom(c4, stash, [Debug]) == c5;
  }

  /** Cleanup undoes the patch: all five originals are back. */
  lemma {:induction false} PatchThenRestore(c: Console)
    ensures var p := PatchFrom(c, map[], ConsoleMethods);
      RestoreFrom(p.console, p.stash, ConsoleMethods) == c
  {
    PatchAll(c);
    var p := PatchFrom(c, map[], ConsoleMethods);
    RestoreAll(p.console, p.stash);
  }

  // ---------------------------------------------------------------------
  // The specification of each handler

  function Initial(cfg: Config, isActive: bool, now: int): (st: DetectorState)
    ensures Valid(st)
    ensures st.violations == 0 && !st.isBlocked && !st.isInitialized && st.events == []
  {
    DetectorState(
      isActive, false, if isActive then Some(now + ArmingDelayMs) else None,
      0, false, 0, false, "", [], false,
      if isActive then AllIntercepting else AllNative,
      if isActive then NativeStash else map[],
      [])
  }

  /**
   * The devtools effect runs again (its dependency handleViolation changed):
   * the old run's cleanup restores the console, and a new run, if active,
   * creates a fresh geometry latch and patches the console again.
   */
  function RerunDetectionEffect(st: DetectorState): (r: DetectorState)
    ensures r == st.(console := r.console, stash := r.stash, devtoolsOpen := false)
  {
    var restored := RestoreFrom(st.console, st.stash, ConsoleMethods);
    if st.isActive then
      var p := PatchFrom(restored, map[], ConsoleMethods);
      st.(console := p.console, stash := p.stash, devtoolsOpen := false)
    else
      st.(console := restored, stash := map[], devtoolsOpen := false)
  }

  /** Re-running the effect leaves the console as it was; only the latch is new. */
  lemma RerunKeepsConsole(st: DetectorState)
    requires st.console == (if st.isActive then AllIntercepting else AllNative)
    requires st.stash == (if st.isActive then NativeStash else map[])
    ensures RerunDetectionEffect(st) == st.(devtoolsOpen := false)
  {
    if st.isActive {
      assert RestoreFrom(st.console, st.stash, ConsoleMethods) == AllNative by {
        RestoreAll(st.console, st.stash);
      }
      assert PatchFrom(AllNative, map[], ConsoleMethods) == ConsoleSetup(AllIntercepting, NativeStash) by {
        PatchAll(AllNative);
      }
    } else {
      RestoreNothing(st.console, ConsoleMethods);
    }
  }

  /** With nothing stashed (the effect had returned early), cleanup changes nothing. */
  lemma {:induction false} RestoreNothing(c: Console, ms: seq<ConsoleMethod>)
    ensures RestoreFrom(c, map[], ms) == c
    decreases |ms|
  {
    if ms != [] {
      RestoreNothing(c, ms[1..]);
    }
  }

  /** The payload of an accepted signal: the caller's details plus the new count. */
  function Report(cfg: Config, st: DetectorState, kind: ViolationKind, details: Details, now: int): (data: ViolationData)
    ensures "violationCount" in data.details && data.details["violationCount"] == Number(st.violations + 1)
    ensures data.violationType == kind && data.timestamp == now
    ensures forall key :: key in details ==> key in data.details
    ensures forall key :: key in details && key != "violationCount" ==> data.details[key] == details[key]
  {
    ViolationData(cfg.userId, cfg.examId, kind, now, details["violationCount" := Number(st.violations + 1)])
  }

  /** Count the signal, stamp the debounce, report to the sink and to onViolation. */
  function CountAndReport(cfg: Config, st: DetectorState, data: ViolationData): DetectorState
  {
    st.(lastViolationTime := data.timestamp, violations := st.violations + 1,
        events := st.events + [Logged(data)] + (if cfg.hasOnViolation then [ViolationNotified(data)] else []))
  }

  /** Show the kind's label, and schedule its hide timer. */
  function ShowWarning(cfg: Config, st: DetectorState, kind: ViolationKind, now: int): DetectorState
  {
    if cfg.showWarnings then
      st.(warningMessage := Label(kind), showWarning := true, hideDue := st.hideDue + [now + WarningMs])
    else st
  }

  /** Block, and notify, when the (already incremented) count has reached the threshold. */
  function BlockIfOver(cfg: Config, st: DetectorState, data: ViolationData): DetectorState
  {
    if st.violations >= cfg.maxViolations then
      st.(isBlocked := true,
          events := st.events + (if cfg.hasOnExamBlocked then [ExamBlocked(st.violations, Violation(data))] else []))
    else st
  }

  /** What handleViolation does to an accepted signal: count, report, warn, block. */
  function Accept(cfg: Config, st: DetectorState, kind: ViolationKind, details: Details, now: int): DetectorState
  {
    var data := Report(cfg, st, kind, details, now);
    BlockIfOver(cfg, ShowWarning(cfg, CountAndReport(cfg, st, data), kind, now), data)
  }

  /**
   * handleViolation: the gate, the global debounce, then the accepted signal;
   * the new count re-renders the component, which re-runs the devtools effect.
   */
  function Record(cfg: Config, st: DetectorState, kind: ViolationKind, details: Details, now: int): (r: DetectorState)
    ensures !Accepts(st, now) ==> r == st
    ensures r.violations >= st.violations && (st.isBlocked ==> r.isBlocked) && |r.events| >= |st.events|
    ensures r.events[..|st.events|] == st.events
  {
    if !st.isActive || !st.isInitialized then st
    else if now - st.lastViolationTime < DebounceMs then st
    else
      AcceptClosedForm(cfg, st, kind, details, now);
      RerunDetectionEffect(Accept(cfg, st, kind, details, now))
  }

  /** True when handleViolation would accept a signal now. */
  predicate Accepts(st: DetectorState, now: int)
  {
    st.isActive && st.isInitialized && now - st.lastViolationTime >= DebounceMs
  }

  datatype KeyEvent = KeyEvent(key: string, alt: bool, meta: bool, ctrl: bool, shift: bool)
  datatype Signal = Signal(kind: ViolationKind, details: Details)

  predicate IsAltTab(e: KeyEvent) { (e.alt && e.key == "Tab") || (e.meta && e.key == "Tab") }
  predicate IsDevToolsKey(e: KeyEvent)
  {
    e.key == "F12" || (e.ctrl && e.shift && e.key in ["I", "J", "C"]) || (e.ctrl && e.key == "U")
  }
  predicate IsCopyPaste(e: KeyEvent) { e.ctrl && ToLower(e.key) in ["c", "v", "a", "x"] }
  predicate IsShortcut(e: KeyEvent) { e.ctrl && e.shift }

  /** handleKeyDown's decision chain: the first rule that matches decides. */
  function ClassifyKey(e: KeyEvent): (r: Option<Signal>)
    ensures r.Some? <==> IsAltTab(e) || IsDevToolsKey(e) || IsCopyPaste(e) || IsShortcut(e)
    ensures IsAltTab(e) ==> r == Some(Signal(AltTab, map[]))
    ensures !IsAltTab(e) && IsDevToolsKey(e) ==> r == Some(Signal(DevTools, map[]))
    ensures !IsAltTab(e) && !IsDevToolsKey(e) && IsCopyPaste(e) ==>
      r == Some(Signal(CopyPaste, map["key" := Text(e.key)]))
    ensures !IsAltTab(e) && !IsDevToolsKey(e) && !IsCopyPaste(e) && IsShortcut(e) ==>
      r == Some(Signal(KeyboardShortcut, map["ctrl" := Flag(e.ctrl), "shift" := Flag(e.shift), "key" := Text(e.key)]))
    ensures r.Some? && r.value.kind == KeyboardShortcut ==>
      !IsAltTab(e) && !IsDevToolsKey(e) && !IsCopyPaste(e)
  {
    if IsAltTab(e) then Some(Signal(AltTab, map[]))
    else if IsDevToolsKey(e) then Some(Signal(DevTools, map[]))
    else if IsCopyPaste(e) then Some(Signal(CopyPaste, map["key" := Text(e.key)]))
    else if IsShortcut(e) then
      Some(Signal(KeyboardShortcut, map["ctrl" := Flag(e.ctrl), "shift" := Flag(e.shift), "key" := Text(e.key)]))
    else None
  }

  /** Whether handleKeyDown calls preventDefault: only an armed detector, only on a match. */
  predicate KeyPrevented(st: DetectorState, e: KeyEvent)
  {
    st.isActive && st.isInitialized && ClassifyKey(e).Some?
  }

  function KeyDown(cfg: Config, st: DetectorState, e: KeyEvent, now: int): DetectorState
  {
    if !st.isActive || !st.isInitialized then st
    else match ClassifyKey(e)
      case None => st
      case Some(sig) => Record(cfg, st, sig.kind, sig.details, now)
  }

  /** handleContextMenu suppresses the native menu only once armed. */
  predicate ContextMenuPrevented(st: DetectorState)
  {
    st.isActive && st.isInitialized
  }

  function ContextMenuStep(cfg: Config, st: DetectorState, now: int): DetectorState
  {
    if !st.isActive || !st.isInitialized then st else Record(cfg, st, ContextMenu, map[], now)
  }

  function VisibilityChange(cfg: Config, st: DetectorState, hidden: bool, now: int): DetectorState
  {
    if hidden then Record(cfg, st, TabSwitch, map[], now) else st
  }

  function Blur(cfg: Config, st: DetectorState, now: int): DetectorState
  {
    Record(cfg, st, WindowBlur, map[], now)
  }

  /** Method 1 of checkDevTools: the window is much larger than its viewport. */
  predicate GeometrySuggestsDevTools(outerHeight: int, innerHeight: int, outerWidth: int, innerWidth: int)
  {
    outerHeight - innerHeight > GeometryThreshold || outerWidth - innerWidth > GeometryThreshold
  }

  /**
   * One tick of the 1000 ms probe. The interval exists only while active;
   * consoleSlow is the outcome of the console.clear() timing measurement.
   */
  function ProbeTick(cfg: Config, st: DetectorState, outerHeight: int, innerHeight: int,
                     outerWidth: int, innerWidth: int, consoleSlow: bool, now: int): DetectorState
  {
    if !st.isActive || !st.isInitialized then st
    else
      var st1 :=
        if GeometrySuggestsDevTools(outerHeight, innerHeight, outerWidth, innerWidth) then
          if !st.devtoolsOpen then
            Record(cfg, st.(devtoolsOpen := true), DevTools, map["method" := Text("window_size")], now)
          else st
        else st.(devtoolsOpen := false);
      if consoleSlow then Record(cfg, st1, DevTools, map["method" := Text("console_timing")], now) else st1
  }

  /** A call console[m](...): the wrapper reports when armed, then the original runs once. */
  function ConsoleCall(cfg: Config, st: DetectorState, m: ConsoleMethod, now: int): DetectorState
  {
    var st1 :=
      if Get(st.console, m) == Intercepting && st.isInitialized then
        Record(cfg, st, DevTools,
               map["method" := Text("console_override"), "console_method" := Text(ConsoleMethodName(m))], now)
      else st;
    st1.(events := st1.events + [ConsoleWritten(m)])
  }

  /** The isActive prop changes: the effects re-run, arming starts over or is cancelled. */
  function SetActive(st: DetectorState, active: bool, now: int): DetectorState
  {
    if active == st.isActive then st
    else if active then
      RerunDetectionEffect(st.(isActive := true, armingDue := Some(now + ArmingDelayMs)))
    else
      RerunDetectionEffect(st.(isActive := false, isInitialized := false, armingDue := None))
  }

  function ArmingTimerFires(st: DetectorState, now: int): DetectorState
  {
    if st.armingDue.Some? && st.armingDue.value <= now then
      st.(isInitialized := true, armingDue := None)
    else st
  }

  /** The oldest pending hide timer fires, whichever warning is on screen. */
  function WarningTimerFires(st: DetectorState, now: int): DetectorState
  {
    if st.hideDue != [] && st.hideDue[0] <= now then
      st.(showWarning := false, hideDue := st.hideDue[1..])
    else st
  }

  function ResetViolations(st: DetectorState): DetectorState
  {
    var st1 := st.(violations := 0, isBlocked := false);
    if st.violations != 0 then RerunDetectionEffect(st1) else st1
  }

  function ForceBlock(cfg: Config, st: DetectorState): DetectorState
  {
    st.(isBlocked := true,
        events := st.events + (if cfg.hasOnExamBlocked then [ExamBlocked(st.violations, Forced)] else []))
  }

  // ---------------------------------------------------------------------
  // Promises of the aggregator

  /** Nothing is recorded while inactive or before arming. */
  lemma RecordGated(cfg: Config, st: DetectorState, kind: ViolationKind, details: Details, now: int)
    requires !st.isActive || !st.isInitialized
    ensures Record(cfg, st, kind, details, now) == st
  {
  }

  /** The debounce is global: any signal within 1000 ms of the last accepted one is dropped, leaving lastViolationTime alone. */
  lemma RecordDebounced(cfg: Config, st: DetectorState, kind: ViolationKind, details: Details, now: int)
    requires now - st.lastViolationTime < DebounceMs
    ensures Record(cfg, st, kind, details, now) == st
  {
  }

  /** The events an accepted signal appends: the log, then the callbacks the configuration has. */
  function Reported(cfg: Config, data: ViolationData, n: int): seq<Event>
  {
    [Logged(data)]
    + (if cfg.hasOnViolation then [ViolationNotified(data)] else [])
    + (if n >= cfg.maxViolations && cfg.hasOnExamBlocked then [ExamBlocked(n, Violation(data))] else [])
  }

  /** An accepted signal: count + 1, timestamped, reported with the new count, and nothing else changes besides the warning, the block and the fresh latch. */
  lemma RecordAccepted(cfg: Config, st: DetectorState, kind: ViolationKind, details: Details, now: int)
    requires Valid(st) && Accepts(st, now)
    ensures var n := st.violations + 1;
      var data := ViolationData(cfg.userId, cfg.examId, kind, now, details["violationCount" := Number(n)]);
      && data.details["violationCount"] == Number(n)
      && Record(cfg, st, kind, details, now) == st.(
           violations := n, lastViolationTime := now,
           events := st.events + Reported(cfg, data, n),
           isBlocked := st.isBlocked || n >= cfg.maxViolations,
           showWarning := st.showWarning || cfg.showWarnings,
           warningMessage := if cfg.showWarnings then Label(kind) else st.warningMessage,
           hideDue := st.hideDue + (if cfg.showWarnings then [now + WarningMs] else []),
           devtoolsOpen := false)
  {
    var n := st.violations + 1;
    var data := Report(cfg, st, kind, details, now);
    var closed := st.(
      violations := n, lastViolationTime := now,
      events := st.events + Reported(cfg, data, n),
      isBlocked := st.isBlocked || n >= cfg.maxViolations,
      showWarning := st.showWarning || cfg.showWarnings,
      warningMessage := if cfg.showWarnings then Label(kind) else st.warningMessage,
      hideDue := st.hideDue + (if cfg.showWarnings then [now + WarningMs] else []));
    assert Accept(cfg, st, kind, details, now) == closed by {
      AcceptClosedForm(cfg, st, kind, details, now);
    }
    assert Record(cfg, st, kind, details, now) == closed.(devtoolsOpen := false) by {
      RecordIsAccept(cfg, st, kind, details, now);
    }
  }

  lemma AcceptEvents(cfg: Config, st: DetectorState, kind: ViolationKind, details: Details, now: int)
    ensures Accept(cfg, st, kind, details, now).events
      == st.events + Reported(cfg, Report(cfg, st, kind, details, now), st.violations + 1)
  {
    AcceptClosedForm(cfg, st, kind, details, now);
  }

  lemma AcceptFields(cfg: Config, st: DetectorState, kind: ViolationKind, details: Details, now: int)
    ensures var a := Accept(cfg, st, kind, details, now);
      && a.violations == st.violations + 1
      && a.lastViolationTime == now
      && a.isBlocked == (st.isBlocked || st.violations + 1 >= cfg.maxViolations)
      && a.showWarning == (st.showWarning || cfg.showWarnings)
      && a.hideDue == st.hideDue + (if cfg.showWarnings then [now + WarningMs] else [])
      && a.warningMessage == (if cfg.showWarnings then Label(kind) else st.warningMessage)
      && a.isActive == st.isActive && a.isInitialized == st.isInitialized && a.armingDue == st.armingDue
      && a.devtoolsOpen == st.devtoolsOpen && a.console == st.console && a.stash == st.stash
  {
    AcceptClosedForm(cfg, st, kind, details, now);
  }

  /** The three stages of an accepted signal, composed into one update of the state. */
  lemma AcceptClosedForm(cfg: Config, st: DetectorState, kind: ViolationKind, details: Details, now: int)
    ensures var data := Report(cfg, st, kind, details, now);
      var n := st.violations + 1;
      Accept(cfg, st, kind, details, now) == st.(
        violations := n, lastViolationTime := now,
        events := st.events + Reported(cfg, data, n),
        isBlocked := st.isBlocked || n >= cfg.maxViolations,
        showWarning := st.showWarning || cfg.showWarnings,
        warningMessage := if cfg.showWarnings then Label(kind) else st.warningMessage,
        hideDue := st.hideDue + (if cfg.showWarnings then [now + WarningMs] else []))
  {
    var data := Report(cfg, st, kind, details, now);
    var n := st.violations + 1;
    var c := CountAndReport(cfg, st, data);
    CountStage(cfg, st, data);
    var w := ShowWarning(cfg, c, kind, now);
    WarnStage(cfg, c, kind, now);
    BlockStage(cfg, w, data);
    var a1 := if cfg.hasOnViolation then [ViolationNotified(data)] else [];
    var a2 := if n >= cfg.maxViolations && cfg.hasOnExamBlocked then [ExamBlocked(n, Violation(data))] else [];
    assert st.events + [Logged(data)] + a1 + a2 == st.events + Reported(cfg, data, n);
  }

  /** Counting changes the count, the debounce stamp and the events, nothing else. */
  lemma CountStage(cfg: Config, st: DetectorState, data: ViolationData)
    ensures CountAndReport(cfg, st, data) == st.(
      lastViolationTime := data.timestamp, violations := st.violations + 1,
      events := st.events + [Logged(data)] + (if cfg.hasOnViolation then [ViolationNotified(data)] else []))
  {
  }

  /** The warning stage changes the three warning fields, and only when warnings are on. */
  lemma WarnStage(cfg: Config, st: DetectorState, kind: ViolationKind, now: int)
    ensures ShowWarning(cfg, st, kind, now) == st.(
      showWarning := st.showWarning || cfg.showWarnings,
      warningMessage := if cfg.showWarnings then Label(kind) else st.warningMessage,
      hideDue := st.hideDue + (if cfg.showWarnings then [now + WarningMs] else []))
  {
    if !cfg.showWarnings {
      assert st.hideDue + [] == st.hideDue;
    }
  }

  /** The blocking stage sets the flag and notifies at the threshold, and only there. */
  lemma BlockStage(cfg: Config, st: DetectorState, data: ViolationData)
    ensures BlockIfOver(cfg, st, data) == st.(
      isBlocked := st.isBlocked || st.violations >= cfg.maxViolations,
      events := st.events + (if st.violations >= cfg.maxViolations && cfg.hasOnExamBlocked
                             then [ExamBlocked(st.violations, Violation(data))] else []))
  {
    if st.violations < cfg.maxViolations {
      assert st.events + [] == st.events;
    }
  }

  /** Under the invariant the effect re-run after an accepted signal only renews the latch. */
  lemma RecordIsAccept(cfg: Config, st: DetectorState, kind: ViolationKind, details: Details, now: int)
    requires Valid(st) && Accepts(st, now)
    ensures Record(cfg, st, kind, details, now) == Accept(cfg, st, kind, details, now).(devtoolsOpen := false)
  {
    var a := Accept(cfg, st, kind, details, now);
    assert a.isActive == st.isActive && a.console == st.console && a.stash == st.stash;
    RerunKeepsConsole(a);
  }

  /** The blocking callback fires on every accepted violation at or past the threshold, even when already blocked. */
  lemma BlockedOnEveryViolationPastMax(cfg: Config, st: DetectorState, kind: ViolationKind, details: Details, now: int)
    requires Valid(st) && Accepts(st, now) && cfg.hasOnExamBlocked
    requires st.violations + 1 >= cfg.maxViolations
    ensures var r := Record(cfg, st, kind, details, now);
      r.isBlocked && |r.events| > |st.events| && EndsWithBlock(r.events, st.violations + 1)
  {
    var n := st.violations + 1;
    var data := Report(cfg, st, kind, details, now);
    var r := Record(cfg, st, kind, details, now);
    assert r.isBlocked && r.events == st.events + Reported(cfg, data, n) by {
      RecordAccepted(cfg, st, kind, details, now);
    }
    ReportedEndsWithBlock(cfg, data, n, st.events);
  }

  lemma ReportedEndsWithBlock(cfg: Config, data: ViolationData, n: int, evs: seq<Event>)
    requires n >= cfg.maxViolations && cfg.hasOnExamBlocked
    ensures |evs + Reported(cfg, data, n)| > |evs| && EndsWithBlock(evs + Reported(cfg, data, n), n)
  {
    var rs := Reported(cfg, data, n);
    assert rs[|rs| - 1] == ExamBlocked(n, Violation(data));
    assert (evs + rs)[|evs + rs| - 1] == rs[|rs| - 1];
  }

  /** The last event is the blocking notice for count n. */
  predicate EndsWithBlock(evs: seq<Event>, n: int)
  {
    |evs| > 0 && evs[|evs| - 1].ExamBlocked? && evs[|evs| - 1].count == n
  }

  /** The aggregator never lowers the count and never unblocks. */
  lemma RecordMonotone(cfg: Config, st: DetectorState, kind: ViolationKind, details: Details, now: int)
    requires Valid(st)
    ensures var r := Record(cfg, st, kind, details, now);
      r.violations >= st.violations && (st.isBlocked ==> r.isBlocked) && |r.events| >= |st.events|
  {
    if Accepts(st, now) {
      RecordAccepted(cfg, st, kind, details, now);
    }
  }

  /** Each operation keeps the detector invariant. */
  lemma {:induction false} RecordValid(cfg: Config, st: DetectorState, kind: ViolationKind, details: Details, now: int)
    requires Valid(st)
    ensures Valid(Record(cfg, st, kind, details, now))
  {
    if Accepts(st, now) {
      RecordAccepted(cfg, st, kind, details, now);
    }
  }

  lemma {:induction false} SensorsKeepValid(cfg: Config, st: DetectorState, e: KeyEvent, hidden: bool, now: int)
    requires Valid(st)
    ensures Valid(KeyDown(cfg, st, e, now))
    ensures Valid(ContextMenuStep(cfg, st, now))
    ensures Valid(VisibilityChange(cfg, st, hidden, now))
    ensures Valid(Blur(cfg, st, now))
  {
    if ClassifyKey(e).Some? {
      RecordValid(cfg, st, ClassifyKey(e).value.kind, ClassifyKey(e).value.details, now);
    }
    RecordValid(cfg, st, ContextMenu, map[], now);
    RecordValid(cfg, st, TabSwitch, map[], now);
    RecordValid(cfg, st, WindowBlur, map[], now);
  }

  lemma {:induction false} ConsoleCallValid(cfg: Config, st: DetectorState, m: ConsoleMethod, now: int)
    requires Valid(st)
    ensures Valid(ConsoleCall(cfg, st, m, now))
  {
    RecordValid(cfg, st, DevTools,
                map["method" := Text("console_override"), "console_method" := Text(ConsoleMethodName(m))], now);
  }

  lemma {:induction false} SetActiveValid(st: DetectorState, active: bool, now: int)
    requires Valid(st)
    ensures Valid(SetActive(st, active, now))
  {
    if active != st.isActive {
      if active {
        RestoreNothing(AllNative, ConsoleMethods);
        PatchAll(AllNative);
      } else {
        RestoreAll(AllIntercepting, NativeStash);
      }
    }
  }

  lemma {:induction false} HostOperationsKeepValid(cfg: Config, st: DetectorState, now: int)
    requires Valid(st)
    ensures Valid(ArmingTimerFires(st, now))
    ensures Valid(WarningTimerFires(st, now))
    ensures Valid(ResetViolations(st))
    ensures Valid(ForceBlock(cfg, st))
  {
    if st.violations != 0 {
      RerunKeepsConsole(st.(violations := 0, isBlocked := false));
    }
  }

  lemma {:induction false} ProbeTickValid(cfg: Config, st: DetectorState, oh: int, ih: int, ow: int, iw: int,
                                          slow: bool, now: int)
    requires Valid(st)
    ensures Valid(ProbeTick(cfg, st, oh, ih, ow, iw, slow, now))
  {
    if st.isActive && st.isInitialized {
      var st1 :=
        if GeometrySuggestsDevTools(oh, ih, ow, iw) then
          if !st.devtoolsOpen then
            Record(cfg, st.(devtoolsOpen := true), DevTools, map["method" := Text("window_size")], now)
          else st
        else st.(devtoolsOpen := false);
      if GeometrySuggestsDevTools(oh, ih, ow, iw) && !st.devtoolsOpen {
        RecordValid(cfg, st.(devtoolsOpen := true), DevTools, map["method" := Text("window_size")], now);
      }
      RecordValid(cfg, st1, DevTools, map["method" := Text("console_timing")], now);
    }
  }

  // ---------------------------------------------------------------------
  // Promises of the sensors and host operations

  /** First-match order: Alt/Meta+Tab wins over every later rule, even with Ctrl+Shift held. */
  lemma AltTabFirst(key: string, ctrl: bool, shift: bool)
    ensures ClassifyKey(KeyEvent("Tab", true, false, ctrl, shift)) == Some(Signal(AltTab, map[]))
    ensures ClassifyKey(KeyEvent("Tab", false, true, ctrl, shift)) == Some(Signal(AltTab, map[]))
  {
  }

  /** The Ctrl+U test is case-sensitive: Ctrl+u (no Shift) passes through unclassified. */
  lemma CtrlUIsCaseSensitive()
    ensures ClassifyKey(KeyEvent("U", false, false, true, false)) == Some(Signal(DevTools, map[]))
    ensures ClassifyKey(KeyEvent("u", false, false, true, false)) == None
  {
    assert ToLower("u") == "u";
  }

  /** Copy/paste is matched in either case; Ctrl+Shift+C is the devtools rule instead. */
  lemma CopyPasteAnyCase()
    ensures ClassifyKey(KeyEvent("V", false, false, true, false)) == Some(Signal(CopyPaste, map["key" := Text("V")]))
    ensures ClassifyKey(KeyEvent("c", false, false, true, false)) == Some(Signal(CopyPaste, map["key" := Text("c")]))
    ensures ClassifyKey(KeyEvent("C", false, false, true, true)) == Some(Signal(DevTools, map[]))
  {
    assert ToLower("V") == "v";
    assert ToLower("c") == "c";
  }

  /** Nothing is classified, prevented or recorded before arming. */
  lemma KeyDownBeforeArming(cfg: Config, st: DetectorState, e: KeyEvent, now: int)
    requires !st.isInitialized
    ensures !KeyPrevented(st, e) && KeyDown(cfg, st, e, now) == st
    ensures !ContextMenuPrevented(st) && ContextMenuStep(cfg, st, now) == st
  {
  }

  /** The geometry probe reports only on the rising edge of its condition, and clears the latch silently on the falling edge. */
  lemma GeometryEdge(cfg: Config, st: DetectorState, oh: int, ih: int, ow: int, iw: int, now: int)
    requires Valid(st) && st.isActive && st.isInitialized
    ensures var r := ProbeTick(cfg, st, oh, ih, ow, iw, false, now);
      && (GeometrySuggestsDevTools(oh, ih, ow, iw) && !st.devtoolsOpen ==>
            r == Record(cfg, st.(devtoolsOpen := true), DevTools, map["method" := Text("window_size")], now))
      && (GeometrySuggestsDevTools(oh, ih, ow, iw) && st.devtoolsOpen ==> r == st)
      && (!GeometrySuggestsDevTools(oh, ih, ow, iw) ==> r == st.(devtoolsOpen := false))
  {
  }

  /**
   * The latch lives in one run of the effect: an accepted geometry report
   * changes the count, the effect runs again, and the latch starts over, so a
   * window that stays large is reported again on a later tick.
   */
  lemma GeometryLatchResetByAcceptedReport(cfg: Config, st: DetectorState, oh: int, ih: int, ow: int, iw: int, now: int)
    requires Valid(st) && Accepts(st, now) && !st.devtoolsOpen
    requires GeometrySuggestsDevTools(oh, ih, ow, iw)
    ensures var r := ProbeTick(cfg, st, oh, ih, ow, iw, false, now);
      r.violations == st.violations + 1 && !r.devtoolsOpen
  {
    RecordAccepted(cfg, st.(devtoolsOpen := true), DevTools, map["method" := Text("window_size")], now);
  }

  /** A patched console method reports only when armed, and the original always runs exactly once. */
  lemma ConsoleCallRunsOriginalOnce(cfg: Config, st: DetectorState, m: ConsoleMethod, now: int)
    requires Valid(st)
    ensures var r := ConsoleCall(cfg, st, m, now);
      && ReportsThen(st.events, r.events, ConsoleWritten(m))
      && (!st.isInitialized ==> r.violations == st.violations)
  {
    var details := map["method" := Text("console_override"), "console_method" := Text(ConsoleMethodName(m))];
    var st1 :=
      if Get(st.console, m) == Intercepting && st.isInitialized then Record(cfg, st, DevTools, details, now)
      else st;
    assert ExtendsWithReports(st.events, st1.events) by {
      RecordOnlyReports(cfg, st, DevTools, details, now);
    }
    assert ConsoleCall(cfg, st, m, now).events == st1.events + [ConsoleWritten(m)];
    ReportsThenLast(st.events, st1.events, ConsoleWritten(m));
  }

  /** evs is before, then events none of which is console output, then last. */
  predicate ReportsThen(before: seq<Event>, evs: seq<Event>, last: Event)
  {
    && |evs| > |before|
    && evs[..|before|] == before
    && evs[|evs| - 1] == last
    && NoConsoleOutput(evs[|before|..|evs| - 1])
  }

  /** evs is before, then events none of which is console output. */
  predicate ExtendsWithReports(before: seq<Event>, evs: seq<Event>)
  {
    |evs| >= |before| && evs[..|before|] == before && NoConsoleOutput(evs[|before|..])
  }

  lemma ReportsThenLast(before: seq<Event>, mid: seq<Event>, last: Event)
    requires ExtendsWithReports(before, mid)
    ensures ReportsThen(before, mid + [last], last)
  {
    var evs := mid + [last];
    assert evs[..|before|] == mid[..|before|];
    assert evs[|before|..|evs| - 1] == mid[|before|..];
  }

  /** No event in evs is output of the native console. */
  predicate NoConsoleOutput(evs: seq<Event>)
  {
    forall i :: 0 <= i < |evs| ==> !evs[i].ConsoleWritten?
  }

  /** The aggregator appends only reports and block notices, never console output. */
  lemma RecordOnlyReports(cfg: Config, st: DetectorState, kind: ViolationKind, details: Details, now: int)
    requires Valid(st)
    ensures ExtendsWithReports(st.events, Record(cfg, st, kind, details, now).events)
  {
    if Accepts(st, now) {
      var n := st.violations + 1;
      var data := Report(cfg, st, kind, details, now);
      var added := Reported(cfg, data, n);
      assert Record(cfg, st, kind, details, now).events == st.events + added by {
        RecordIsAccept(cfg, st, kind, details, now);
        AcceptEvents(cfg, st, kind, details, now);
      }
      ReportedNoConsole(cfg, data, n);
      SplitAppended(st.events, added);
    }
  }

  lemma ReportedNoConsole(cfg: Config, data: ViolationData, n: int)
    ensures NoConsoleOutput(Reported(cfg, data, n))
  {
  }

  lemma SplitAppended(s: seq<Event>, added: seq<Event>)
    ensures |s + added| >= |s| && (s + added)[..|s|] == s && (s + added)[|s|..] == added
  {
  }

  /** Deactivating disarms and cancels the pending arming timer; activating always re-enters arming. */
  lemma ActivationArming(st: DetectorState, now: int)
    requires Valid(st)
    ensures var off := SetActive(st, false, now);
      !off.isInitialized && off.armingDue == None && off.console == AllNative
    ensures st.isActive ==> SetActive(st, true, now) == st
    ensures !st.isActive ==>
      var on := SetActive(st, true, now);
      !on.isInitialized && on.armingDue == Some(now + ArmingDelayMs) && on.console == AllIntercepting
  {
    if st.isActive {
      RestoreAll(AllIntercepting, NativeStash);
    } else {
      PatchAll(AllNative);
    }
  }

  /** Arming happens only when the 2000 ms timer set at activation is due. */
  lemma ArmingOnlyWhenDue(st: DetectorState, now: int)
    requires Valid(st)
    ensures var r := ArmingTimerFires(st, now);
      r.isInitialized <==> st.isInitialized || (st.isActive && st.armingDue.value <= now)
  {
  }

  /** resetViolations clears the count and the block and changes nothing else but the latch of a re-run effect. */
  lemma ResetLaw(st: DetectorState)
    requires Valid(st)
    ensures ResetViolations(st) ==
      st.(violations := 0, isBlocked := false, devtoolsOpen := if st.violations != 0 then false else st.devtoolsOpen)
  {
    if st.violations != 0 {
      RerunKeepsConsole(st.(violations := 0, isBlocked := false));
    }
  }

  /** forceBlock blocks whatever the count and reports the current count with {forced: true}. */
  lemma ForceBlockLaw(cfg: Config, st: DetectorState)
    requires cfg.hasOnExamBlocked
    ensures var r := ForceBlock(cfg, st);
      r.isBlocked && r.violations == st.violations
      && r.events == st.events + [ExamBlocked(st.violations, Forced)]
  {
  }

  /** Hide timers are never cancelled: a warning re-shown 1500 ms later still disappears 3000 ms after the first one. */
  lemma WarningHiddenByEarlierTimer(cfg: Config, st: DetectorState, k1: ViolationKind, k2: ViolationKind, t: int)
    requires Valid(st) && Accepts(st, t) && st.hideDue == [] && cfg.showWarnings
    ensures var s1 := Record(cfg, st, k1, map[], t);
      var s2 := Record(cfg, s1, k2, map[], t + 1500);
      s2.showWarning && s2.warningMessage == Label(k2)
      && !WarningTimerFires(s2, t + WarningMs).showWarning
  {
    RecordWarns(cfg, st, k1, map[], t);
    var s1 := Record(cfg, st, k1, map[], t);
    RecordWarns(cfg, s1, k2, map[], t + 1500);
    var s2 := Record(cfg, s1, k2, map[], t + 1500);
    assert s2.hideDue[0] == t + WarningMs;
  }

  /** With warnings on, an accepted signal shows its label and queues a hide timer, and stays valid. */
  lemma RecordWarns(cfg: Config, st: DetectorState, kind: ViolationKind, details: Details, now: int)
    requires Valid(st) && Accepts(st, now) && cfg.showWarnings
    ensures var r := Record(cfg, st, kind, details, now);
      && Valid(r) && r.isActive && r.isInitialized && r.lastViolationTime == now
      && r.showWarning && r.warningMessage == Label(kind) && r.hideDue == st.hideDue + [now + WarningMs]
  {
    RecordValid(cfg, st, kind, details, now);
    RecordIsAccept(cfg, st, kind, details, now);
    AcceptFields(cfg, st, kind, details, now);
  }

  /** The scenario of three spaced violations with maxViolations = 3: the third blocks; one inside the window is dropped. */
  lemma ThreeStrikes(st: DetectorState, t: int)
    requires Valid(st) && st.isActive && st.isInitialized && st.violations == 0 && !st.isBlocked
    requires t - st.lastViolationTime >= DebounceMs
    ensures var cfg := Config("user123", "exam456", 3, true, true, true);
      var s1 := Record(cfg, st, TabSwitch, map[], t);
      var s2 := Record(cfg, s1, ContextMenu, map[], t + 1500);
      var s3 := Record(cfg, s2, TabSwitch, map[], t + 1600);
      var s4 := Record(cfg, s3, AltTab, map[], t + 3000);
      && s1.violations == 1 && !s1.isBlocked
      && s2.violations == 2 && !s2.isBlocked
      && s3 == s2
      && s4.violations == 3 && s4.isBlocked
      && EndsWithBlock(s4.events, 3)
  {
    var cfg := Config("user123", "exam456", 3, true, true, true);
    var s1 := Record(cfg, st, TabSwitch, map[], t);
    assert Valid(s1) && Accepts(s1, t + 1500) && s1.violations == 1 && !s1.isBlocked by {
      RecordCounts(cfg, st, TabSwitch, map[], t);
    }
    var s2 := Record(cfg, s1, ContextMenu, map[], t + 1500);
    assert Valid(s2) && Accepts(s2, t + 3000) && s2.violations == 2 && !s2.isBlocked by {
      RecordCounts(cfg, s1, ContextMenu, map[], t + 1500);
    }
    assert Record(cfg, s2, TabSwitch, map[], t + 1600) == s2 by {
      RecordDebounced(cfg, s2, TabSwitch, map[], t + 1600);
    }
    var s4 := Record(cfg, s2, AltTab, map[], t + 3000);
    assert s4.violations == 3 && s4.isBlocked && EndsWithBlock(s4.events, 3) by {
      BlockedOnEveryViolationPastMax(cfg, s2, AltTab, map[], t + 3000);
      RecordCounts(cfg, s2, AltTab, map[], t + 3000);
    }
  }

  /** An accepted signal counts one more, stamps the debounce, blocks at the threshold and stays valid. */
  lemma RecordCounts(cfg: Config, st: DetectorState, kind: ViolationKind, details: Details, now: int)
    requires Valid(st) && Accepts(st, now)
    ensures var r := Record(cfg, st, kind, details, now);
      && Valid(r) && r.isActive && r.isInitialized && r.lastViolationTime == now
      && r.violations == st.violations + 1
      && r.isBlocked == (st.isBlocked || st.violations + 1 >= cfg.maxViolations)
  {
    RecordValid(cfg, st, kind, details, now);
    RecordIsAccept(cfg, st, kind, details, now);
    AcceptFields(cfg, st, kind, details, now);
  }

  // ---------------------------------------------------------------------
  // useAntiCheat's own counter

  /**
   * The hook's state. `violations` holds whatever `violationCount || …`
   * evaluated to, so it is a JavaScript value and not only a number.
   */
  datatype HookState = HookState(violations: DetailValue, isBlocked: bool, isActive: bool)

  const HookInitial := HookState(Number(0), false, false)

  /** JavaScript truthiness of a detail value. */
  predicate Truthy(v: DetailValue)
  {
    match v
    case Number(n) => n != 0
    case Text(t) => t != ""
    case Flag(b) => b
  }

  /** JavaScript `v + 1`: numeric addition, `true`/`false` as 1/0, and string concatenation. */
  function PlusOne(v: DetailValue): (r: DetailValue)
    ensures v.Number? ==> r == Number(v.number + 1)
    ensures v.Flag? ==> r == Number(if v.flag then 2 else 1)
    ensures v.Text? ==> r.Text? && |r.text| == |v.text| + 1 && r.text[..|v.text|] == v.text
  {
    match v
    case Number(n) => Number(n + 1)
    case Flag(b) => Number(if b then 2 else 1)
    case Text(t) => Text(t + "1")
  }

  /** `violationData.details?.violationCount || prev.violations + 1`. */
  function HookOnViolation(prev: HookState, data: ViolationData): (r: HookState)
    ensures r.isBlocked == prev.isBlocked && r.isActive == prev.isActive
    ensures "violationCount" in data.details && Truthy(data.details["violationCount"]) ==>
      r.violations == data.details["violationCount"]
  {
    var n :=
      if "violationCount" in data.details && Truthy(data.details["violationCount"])
      then data.details["violationCount"]
      else PlusOne(prev.violations);
    prev.(violations := n)
  }

  function HookOnBlocked(prev: HookState): (r: HookState)
    ensures r.isBlocked && r.violations == prev.violations
  {
    prev.(isBlocked := true)
  }

  /**
   * Without a reported count, or with a falsy one (0, "" or false), the hook
   * adds one to its own counter; a numeric counter then counts one more.
   */
  lemma HookCountsOneMore(prev: HookState, data: ViolationData)
    requires "violationCount" !in data.details || !Truthy(data.details["violationCount"])
    ensures HookOnViolation(prev, data) == prev.(violations := PlusOne(prev.violations))
    ensures prev.violations.Number? ==>
      HookOnViolation(prev, data).violations == Number(prev.violations.number + 1)
  {
  }

  /**
   * A truthy count that is not a number is stored as it is, and a later
   * report without a count then concatenates: "3" becomes "31".
   */
  lemma HookTextCountConcatenates(prev: HookState, data: ViolationData)
    requires data.details == map["violationCount" := Text("3")]
    ensures HookOnViolation(prev, data).violations == Text("3")
    ensures HookOnViolation(HookOnViolation(prev, data), data.(details := map[])).violations == Text("31")
  {
    assert "violationCount" !in data.(details := map[]).details;
  }

  /** The hook's counter copies the detector's new count, whatever it held before. */
  lemma HookTracksDetector(cfg: Config, st: DetectorState, hook: HookState, kind: ViolationKind, details: Details, now: int)
    requires Valid(st) && Accepts(st, now)
    ensures var n := st.violations + 1;
      var data := ViolationData(cfg.userId, cfg.examId, kind, now, details["violationCount" := Number(n)]);
      HookOnViolation(hook, data).violations == Number(Record(cfg, st, kind, details, now).violations)
  {
    RecordAccepted(cfg, st, kind, details, now);
  }

  // ---------------------------------------------------------------------
  // The detector as the component holds it: fields updated in place

  /** The patching forEach, one console method at a time. */
  method PatchLoop(c0: Console, s0: map<ConsoleMethod, ConsoleFn>) returns (c: Console, s: map<ConsoleMethod, ConsoleFn>)
    ensures ConsoleSetup(c, s) == PatchFrom(c0, s0, ConsoleMethods)
  {
    c, s := c0, s0;
    var i := 0;
    while i < |ConsoleMethods|
      invariant 0 <= i <= |ConsoleMethods|
      invariant PatchFrom(c, s, ConsoleMethods[i..]) == PatchFrom(c0, s0, ConsoleMethods)
    {
      var m := ConsoleMethods[i];
      assert ConsoleMethods[i..][1..] == ConsoleMethods[i + 1..];
      s := s[m := Get(c, m)];
      c := Set(c, m, Intercepting);
      i := i + 1;
    }
  }

  /** The restoring forEach: each stashed method goes back, the others stay. */
  method RestoreLoop(c0: Console, stash: map<ConsoleMethod, ConsoleFn>) returns (c: Console)
    ensures c == RestoreFrom(c0, stash, ConsoleMethods)
  {
    c := c0;
    var i := 0;
    while i < |ConsoleMethods|
      invariant 0 <= i <= |ConsoleMethods|
      invariant RestoreFrom(c, stash, ConsoleMethods[i..]) == RestoreFrom(c0, stash, ConsoleMethods)
    {
      var m := ConsoleMethods[i];
      assert ConsoleMethods[i..][1..] == ConsoleMethods[i + 1..];
      if m in stash {
        c := Set(c, m, stash[m]);
      }
      i := i + 1;
    }
  }

  class Detector {
    const cfg: Config
    var isActive: bool
    var isInitialized: bool
    var armingDue: Option<int>
    var violations: int
    var isBlocked: bool
    var lastViolationTime: int
    var showWarning: bool
    var warningMessage: string
    var hideDue: seq<int>
    var devtoolsOpen: bool
    var console: Console
    var stash: map<ConsoleMethod, ConsoleFn>
    var events: seq<Event>

    /** The fields, read as one value. */
    ghost function Model(): DetectorState
      reads this
    {
      DetectorState(isActive, isInitialized, armingDue, violations, isBlocked, lastViolationTime,
                    showWarning, warningMessage, hideDue, devtoolsOpen, console, stash, events)
    }

    ghost predicate Inv()
      reads this
    {
      Valid(Model())
    }

    constructor (config: Config, active: bool, now: int)
      ensures cfg == config && Inv()
      ensures Model() == Initial(config, active, now)
    {
      cfg := config;
      isActive := active;
      isInitialized := false;
      armingDue := if active then Some(now + ArmingDelayMs) else None;
      violations := 0;
      isBlocked := false;
      lastViolationTime := 0;
      showWarning := false;
      warningMessage := "";
      hideDue := [];
      devtoolsOpen := false;
      console := AllNative;
      stash := map[];
      events := [];
      new;
      if active {
        PatchConsole();
        PatchAll(AllNative);
      }
    }

    /** The forEach that stashes each console method and installs the wrapper. */
    method PatchConsole()
      modifies this
      ensures ConsoleSetup(console, stash) == PatchFrom(old(console), old(stash), ConsoleMethods)
      ensures Model() == old(Model()).(console := console, stash := stash)
    {
      console, stash := PatchLoop(console, stash);
    }

    /** The cleanup's forEach that puts each stashed original back. */
    method RestoreConsole()
      modifies this
      ensures console == RestoreFrom(old(console), old(stash), ConsoleMethods)
      ensures Model() == old(Model()).(console := console)
    {
      console := RestoreLoop(console, stash);
    }

    method RerunDetection()
      modifies this
      ensures Model() == RerunDetectionEffect(old(Model()))
    {
      RestoreConsole();
      stash := map[];
      devtoolsOpen := false;
      if isActive {
        PatchConsole();
      }
    }

    method HandleViolation(kind: ViolationKind, details: Details, now: int)
      requires Inv()
      modifies this
      ensures Inv()
      ensures Model() == Record(cfg, old(Model()), kind, details, now)
    {
      RecordValid(cfg, Model(), kind, details, now);
      if !isActive || !isInitialized {
        return;
      }
      if now - lastViolationTime < DebounceMs {
        return;
      }
      CountReportWarnBlock(kind, details, now);
      RerunDetection();
    }

    /** The body of handleViolation past its two early returns. */
    method CountReportWarnBlock(kind: ViolationKind, details: Details, now: int)
      modifies this
      ensures Model() == Accept(cfg, old(Model()), kind, details, now)
    {
      var newCount := violations + 1;
      var data := ViolationData(cfg.userId, cfg.examId, kind, now, details["violationCount" := Number(newCount)]);
      assert data == Report(cfg, Model(), kind, details, now);
      CountAndLog(data);
      Warn(kind, now);
      BlockWhenOver(data);
    }

    method Warn(kind: ViolationKind, now: int)
      modifies this
      ensures Model() == ShowWarning(cfg, old(Model()), kind, now)
    {
      if cfg.showWarnings {
        warningMessage := Label(kind);
        showWarning := true;
        hideDue := hideDue + [now + WarningMs];
      }
    }

    method CountAndLog(data: ViolationData)
      modifies this
      ensures Model() == CountAndReport(cfg, old(Model()), data)
    {
      lastViolationTime := data.timestamp;
      violations := violations + 1;
      events := events + [Logged(data)];
      if cfg.hasOnViolation {
        events := events + [ViolationNotified(data)];
      }
    }

    method BlockWhenOver(data: ViolationData)
      modifies this
      ensures Model() == BlockIfOver(cfg, old(Model()), data)
    {
      if violations >= cfg.maxViolations {
        isBlocked := true;
        if cfg.hasOnExamBlocked {
          events := events + [ExamBlocked(violations, Violation(data))];
        }
      }
    }

    method OnVisibilityChange(hidden: bool, now: int)
      requires Inv()
      modifies this
      ensures Inv() && Model() == VisibilityChange(cfg, old(Model()), hidden, now)
    {
      if hidden {
        HandleViolation(TabSwitch, map[], now);
      }
    }

    method OnWindowBlur(now: int)
      requires Inv()
      modifies this
      ensures Inv() && Model() == Blur(cfg, old(Model()), now)
    {
      HandleViolation(WindowBlur, map[], now);
    }

    method OnKeyDown(e: KeyEvent, now: int) returns (prevented: bool)
      requires Inv()
      modifies this
      ensures Inv() && Model() == KeyDown(cfg, old(Model()), e, now)
      ensures prevented == KeyPrevented(old(Model()), e)
    {
      prevented := false;
      if !isActive || !isInitialized {
        return;
      }
      var sig := ClassifyKey(e);
      if sig.Some? {
        prevented := true;
        HandleViolation(sig.value.kind, sig.value.details, now);
      }
    }

    method OnContextMenu(now: int) returns (prevented: bool)
      requires Inv()
      modifies this
      ensures Inv() && Model() == ContextMenuStep(cfg, old(Model()), now)
      ensures prevented == ContextMenuPrevented(old(Model()))
    {
      prevented := false;
      if !isActive || !isInitialized {
        return;
      }
      prevented := true;
      HandleViolation(ContextMenu, map[], now);
    }

    /** checkDevTools, run by the interval while the detector is active. */
    method OnProbeTick(outerHeight: int, innerHeight: int, outerWidth: int, innerWidth: int,
                       consoleSlow: bool, now: int)
      requires Inv()
      modifies this
      ensures Inv() && Model() == ProbeTick(cfg, old(Model()), outerHeight, innerHeight, outerWidth, innerWidth, consoleSlow, now)
    {
      if !isActive || !isInitialized {
        return;
      }
      if GeometrySuggestsDevTools(outerHeight, innerHeight, outerWidth, innerWidth) {
        if !devtoolsOpen {
          devtoolsOpen := true;
          HandleViolation(DevTools, map["method" := Text("window_size")], now);
        }
      } else {
        devtoolsOpen := false;
      }
      if consoleSlow {
        HandleViolation(DevTools, map["method" := Text("console_timing")], now);
      }
    }

    /** A call of console[m](...) by any code on the page. */
    method OnConsoleCall(m: ConsoleMethod, now: int)
      requires Inv()
      modifies this
      ensures Inv() && Model() == ConsoleCall(cfg, old(Model()), m, now)
    {
      if Get(console, m) == Intercepting && isInitialized {
        HandleViolation(DevTools,
          map["method" := Text("console_override"), "console_method" := Text(ConsoleMethodName(m))], now);
      }
      events := events + [ConsoleWritten(m)];
    }

    method OnActiveChange(active: bool, now: int)
      requires Inv()
      modifies this
      ensures Inv() && Model() == SetActive(old(Model()), active, now)
    {
      ghost var pre := Model();
      if active == isActive {
        return;
      }
      if active {
        isActive := true;
        armingDue := Some(now + ArmingDelayMs);
        assert Model() == pre.(isActive := true, armingDue := Some(now + ArmingDelayMs));
      } else {
        isActive := false;
        isInitialized := false;
        armingDue := None;
        assert Model() == pre.(isActive := false, isInitialized := false, armingDue := None);
      }
      RerunDetection();
      assert Model() == SetActive(pre, active, now);
      assert Valid(Model()) by { SetActiveValid(pre, active, now); }
    }

    method ArmingTimer(now: int)
      requires Inv()
      modifies this
      ensures Inv() && Model() == ArmingTimerFires(old(Model()), now)
    {
      if armingDue.Some? && armingDue.value <= now {
        isInitialized := true;
        armingDue := None;
      }
    }

    method WarningTimer(now: int)
      requires Inv()
      modifies this
      ensures Inv() && Model() == WarningTimerFires(old(Model()), now)
    {
      if hideDue != [] && hideDue[0] <= now {
        showWarning := false;
        hideDue := hideDue[1..];
      }
    }

    method Reset()
      requires Inv()
      modifies this
      ensures Inv() && Model() == ResetViolations(old(Model()))
    {
      ghost var pre := Model();
      var changed := violations != 0;
      violations := 0;
      isBlocked := false;
      assert Model() == pre.(violations := 0, isBlocked := false);
      if changed {
        RerunDetection();
      }
      assert Model() == ResetViolations(pre);
      assert Valid(Model()) by { HostOperationsKeepValid(cfg, pre, 0); }
    }

    method Block()
      requires Inv()
      modifies this
      ensures Inv() && Model() == ForceBlock(cfg, old(Model()))
    {
      isBlocked := true;
      if cfg.hasOnExamBlocked {
        events := events + [ExamBlocked(violations, Forced)];
      }
    }
  }
}
