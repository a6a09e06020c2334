/**
 * The control flow of `com.android.commands.monkey.Monkey`: acquiring the
 * three system handles (`getSystemInterfaces`), registering the activity
 * controller, the event loop (`runMonkeyCycles`) and `run` with its `finally`
 * block that restores the screen rotation.
 *
 * Every collaborator is outside the modelled code, so each is an input: the
 * outcome of each handle lookup and registration call, the finite script of
 * what `getNextEvent` yields together with the code each injection returns,
 * and the outcome of the final restore and deregistration calls. `Run`
 * returns the trace of calls and log lines it makes and how it completes.
 */
module Monkey {
  import opened Wrappers

  /** What a Java call can throw: a `RuntimeException`, or any other `Throwable`. */
  datatype Raised = Runtime | OtherThrowable

  /** How a Java call completes: normally with a value, or by throwing. */
  datatype Completion<T> = Return(value: T) | Throw(raised: Raised)

  /** A call that returns nothing: completes, or throws. */
  datatype Call = Ok | Fails(raised: Raised)

  /** What `ActivityManager.getService()` does: a handle, `null`, or a throw. */
  datatype Lookup = Handle | Null | Throws

  /** An event produced by the event source; what it does is not modelled. */
  datatype Event = Event(id: nat)

  /** The codes `injectEvent` returns that the loop tells apart; `Injected` is every other code. */
  datatype InjectCode = InjectFail | RemoteError | SecurityError | Injected

  datatype InjectOutcome = Code(code: InjectCode) | InjectThrows(raised: Raised)

  /** One call of `getNextEvent`: an event and its injection's outcome, `null`, or a throw. */
  datatype Pull = Next(event: Event, inject: InjectOutcome) | EndOfEvents | PullThrows(raised: Raised)

  datatype Service = ActivityManager | WindowManager | PackageManager

  /** The platform as seen by one run: the outcome of every collaborator call. */
  datatype Platform = Platform(
    amService: Lookup,         // ActivityManager.getService()
    amDefault: bool,           // ActivityManagerNative.getDefault() is non-null
    windowManager: bool,       // the window service is non-null
    packageManager: bool,      // the package service is non-null
    registerWithFlag: Call,    // setActivityController(controller, true)
    registerPlain: Call,       // setActivityController(controller)
    events: seq<Pull>,         // what getNextEvent yields, in order; past the end it yields null
    restore: InjectOutcome,    // injecting the ROTATION_0, unlocked rotation event
    deregister: Call)          // setActivityController(null, true)

  /** The calls and log lines of a run, in program order. */
  datatype Action =
    | GetService(service: Service)     // primary lookup of a handle
    | GetDefaultActivityManager        // fallback lookup after getService threw
    | ConnectError(service: Service)   // "** Error: Unable to connect to ..."
    | SetController(withFlag: bool)    // registration, two-argument form when withFlag
    | OpenEventSource                  // new MonkeySourceShell(mAm)
    | PrintHelp
    | NextEvent                        // getNextEvent()
    | Inject(event: Event)             // injectEvent of a source event
    | InjectFailedLine                 // "// Injection Failed"
    | RemoteErrorLine                  // "** Error: RemoteException while injecting event."
    | SecurityErrorLine                // "** Error: SecurityException while injecting event."
    | RuntimeErrorLine                 // "** Error: A RuntimeException occurred:"
    | RestoreRotation                  // injection of the ROTATION_0, unlocked rotation event
    | ClearController                  // setActivityController(null, true)
  {
    /** The actions of `getSystemInterfaces`. */
    predicate InAcquire() {
      GetService? || GetDefaultActivityManager? || ConnectError? || SetController?
    }

    /** The actions the event loop itself performs. */
    predicate InLoop() {
      NextEvent? || Inject? || InjectFailedLine? || RemoteErrorLine? || SecurityErrorLine?
    }
  }

  datatype Run<T> = Run(trace: seq<Action>, result: Completion<T>)

  // ---------------------------------------------------------------- trace measures

  function Count(trace: seq<Action>, a: Action): nat {
    if |trace| == 0 then 0 else (if trace[0] == a then 1 else 0) + Count(trace[1..], a)
  }

  /** The events injected, in injection order. */
  function Injections(trace: seq<Action>): seq<Event> {
    if |trace| == 0 then []
    else (if trace[0].Inject? then [trace[0].event] else []) + Injections(trace[1..])
  }

  lemma {:induction false} CountAppend(a: seq<Action>, b: seq<Action>, x: Action)
    ensures Count(a + b, x) == Count(a, x) + Count(b, x)
  {
    if |a| > 0 {
      assert (a + b)[0] == a[0];
      assert (a + b)[1..] == a[1..] + b;
      CountAppend(a[1..], b, x);
    } else {
      assert a + b == b;
    }
  }

  lemma {:induction false} InjectionsAppend(a: seq<Action>, b: seq<Action>)
    ensures Injections(a + b) == Injections(a) + Injections(b)
  {
    if |a| > 0 {
      assert (a + b)[0] == a[0];
      assert (a + b)[1..] == a[1..] + b;
      InjectionsAppend(a[1..], b);
    } else {
      assert a + b == b;
    }
  }

  lemma {:induction false} CountAbsent(trace: seq<Action>, x: Action)
    ensures Count(trace, x) == 0 <==> x !in trace
  {
    if |trace| > 0 {
      CountAbsent(trace[1..], x);
      assert x in trace <==> trace[0] == x || x in trace[1..];
    }
  }

  lemma {:induction false} NoInjections(trace: seq<Action>)
    requires forall i :: 0 <= i < |trace| ==> !trace[i].Inject?
    ensures Injections(trace) == []
  {
    if |trace| > 0 {
      NoInjections(trace[1..]);
    }
  }

  // ---------------------------------------------------------------- acquisition

  /** The activity manager is obtained: directly, or through the fallback after a throw. */
  predicate ActivityManagerAvailable(p: Platform) {
    p.amService == Handle || (p.amService == Throws && p.amDefault)
  }

  predicate HandlesAvailable(p: Platform) {
    ActivityManagerAvailable(p) && p.windowManager && p.packageManager
  }

  /** Registration completes unless both forms of `setActivityController` throw. */
  predicate RegistrationCompletes(p: Platform) {
    p.registerWithFlag.Ok? || p.registerPlain.Ok?
  }

  /** Position of an acquisition action in the order the source performs them. */
  function AcquireRank(a: Action): int {
    match a
    case GetService(service) =>
      (match service case ActivityManager => 0 case WindowManager => 2 case PackageManager => 3)
    case GetDefaultActivityManager => 1
    case ConnectError(_) => 4
    case SetController(withFlag) => if withFlag then 5 else 6
    case _ => 7
  }

  /** Each step happens at most once and never before one ranked earlier. */
  predicate InAcquireOrder(trace: seq<Action>) {
    forall i :: 0 <= i < |trace| - 1 ==> AcquireRank(trace[i]) < AcquireRank(trace[i + 1])
  }

  /**
   * `getSystemInterfaces`: the activity manager (falling back to `getDefault`
   * when `getService` throws), then the window manager, then the package
   * manager; the first missing one logs one error and returns false; with all
   * three the controller is registered, two-argument form first.
   */
  function GetSystemInterfaces(p: Platform): (r: Run<bool>)
    ensures r.result == Return(false) <==> !HandlesAvailable(p)
    ensures r.result == Return(true) <==> HandlesAvailable(p) && RegistrationCompletes(p)
    ensures r.result.Throw? ==> r.result == Throw(p.registerPlain.raised)
    ensures forall i :: 0 <= i < |r.trace| ==> r.trace[i].InAcquire()
  {
    var am := [GetService(ActivityManager)] + (if p.amService == Throws then [GetDefaultActivityManager] else []);
    if !ActivityManagerAvailable(p) then
      Run(am + [ConnectError(ActivityManager)], Return(false))
    else
      var wm := am + [GetService(WindowManager)];
      if !p.windowManager then
        Run(wm + [ConnectError(WindowManager)], Return(false))
      else
        var pm := wm + [GetService(PackageManager)];
        if !p.packageManager then
          Run(pm + [ConnectError(PackageManager)], Return(false))
        else
          var register := pm + [SetController(true)];
          match p.registerWithFlag
          case Ok => Run(register, Return(true))
          case Fails(_) =>
            match p.registerPlain
            case Ok => Run(register + [SetController(false)], Return(true))
            case Fails(raised) => Run(register + [SetController(false)], Throw(raised))
  }

  /** The calls `getSystemInterfaces` makes: in source order, stopping at the first missing handle. */
  lemma AcquireTrace(p: Platform)
    ensures InAcquireOrder(GetSystemInterfaces(p).trace)
  {
    var am := [GetService(ActivityManager)] + (if p.amService == Throws then [GetDefaultActivityManager] else []);
    assert InAcquireOrder(am) && AcquireRank(am[|am| - 1]) < 2;
    if !ActivityManagerAvailable(p) {
      OrderedSnoc(am, ConnectError(ActivityManager));
      return;
    }
    var wm := am + [GetService(WindowManager)];
    OrderedSnoc(am, GetService(WindowManager));
    if !p.windowManager {
      OrderedSnoc(wm, ConnectError(WindowManager));
      return;
    }
    var pm := wm + [GetService(PackageManager)];
    OrderedSnoc(wm, GetService(PackageManager));
    if !p.packageManager {
      OrderedSnoc(pm, ConnectError(PackageManager));
      return;
    }
    var register := pm + [SetController(true)];
    OrderedSnoc(pm, SetController(true));
    if p.registerWithFlag.Fails? {
      OrderedSnoc(register, SetController(false));
    }
  }

  /** An ordered trace stays ordered when a step ranked after its last one is appended. */
  lemma OrderedSnoc(prefix: seq<Action>, next: Action)
    requires InAcquireOrder(prefix)
    requires |prefix| > 0 ==> AcquireRank(prefix[|prefix| - 1]) < AcquireRank(next)
    ensures InAcquireOrder(prefix + [next])
  {
    var t := prefix + [next];
    forall i | 0 <= i < |t| - 1
      ensures AcquireRank(t[i]) < AcquireRank(t[i + 1])
    {
      if i + 1 < |prefix| {
        assert t[i] == prefix[i] && t[i + 1] == prefix[i + 1];
      } else {
        assert t[i] == prefix[|prefix| - 1] && t[i + 1] == next;
      }
    }
  }

  /** Which lookups and registrations happen, and that exactly the failing runs log an error. */
  lemma AcquireCalls(p: Platform)
    ensures (exists s :: ConnectError(s) in GetSystemInterfaces(p).trace) <==> !HandlesAvailable(p)
    ensures !ActivityManagerAvailable(p) ==> GetService(WindowManager) !in GetSystemInterfaces(p).trace
    ensures !(ActivityManagerAvailable(p) && p.windowManager) ==> GetService(PackageManager) !in GetSystemInterfaces(p).trace
    ensures SetController(true) in GetSystemInterfaces(p).trace <==> HandlesAvailable(p)
    ensures SetController(false) in GetSystemInterfaces(p).trace <==> HandlesAvailable(p) && p.registerWithFlag.Fails?
  {
  }

  // ---------------------------------------------------------------- the event loop

  /** A pull after which the loop goes on: an event whose injection returned a code. */
  predicate Continues(pull: Pull) {
    pull.Next? && pull.inject.Code?
  }

  /** The pulls the loop gets through before the one that ends it: the longest continuing prefix. */
  function Handled(events: seq<Pull>): (h: seq<Pull>)
    ensures |h| <= |events| && h == events[..|h|]
    ensures forall i :: 0 <= i < |h| ==> Continues(h[i])
    ensures |h| < |events| ==> !Continues(events[|h|])
  {
    if |events| == 0 || !Continues(events[0]) then []
    else
      var rest := Handled(events[1..]);
      assert events[..|rest| + 1] == [events[0]] + events[1..][..|rest|];
      [events[0]] + rest
  }

  /** The events of a stretch of the script, in order. */
  function EventsOf(pulls: seq<Pull>): seq<Event> {
    if |pulls| == 0 then []
    else (if pulls[0].Next? then [pulls[0].event] else []) + EventsOf(pulls[1..])
  }

  /** How many of these pulls are events whose injection returned `code`. */
  function CodeCount(pulls: seq<Pull>, code: InjectCode): nat {
    if |pulls| == 0 then 0
    else (if pulls[0].Next? && pulls[0].inject == Code(code) then 1 else 0) + CodeCount(pulls[1..], code)
  }

  /** The part of the script the loop reads: the handled pulls and the one that ends the loop. */
  function Reached(events: seq<Pull>): (r: seq<Pull>)
    ensures r == Handled(events) + (if |Handled(events)| < |events| then [events[|Handled(events)|]] else [])
  {
    if |events| == 0 then []
    else if !Continues(events[0]) then [events[0]]
    else [events[0]] + Reached(events[1..])
  }

  /** The failure code a log line reports, if it is one of the three failure lines. */
  function LoggedCode(line: Action): Option<InjectCode> {
    match line
    case InjectFailedLine => Some(InjectFail)
    case RemoteErrorLine => Some(RemoteError)
    case SecurityErrorLine => Some(SecurityError)
    case _ => None
  }

  /** The log line for an injection code; success logs nothing. */
  function CodeLog(code: InjectCode): (log: seq<Action>)
    ensures |log| <= 1
    ensures log == [] <==> code == Injected
    ensures forall line :: line in log ==> LoggedCode(line) == Some(code)
  {
    match code
    case InjectFail => [InjectFailedLine]
    case RemoteError => [RemoteErrorLine]
    case SecurityError => [SecurityErrorLine]
    case Injected => []
  }

  /** The `while (true)` loop of `runMonkeyCycles`, up to `null` or a throw. */
  function Loop(events: seq<Pull>): (r: Run<()>)
    ensures forall i :: 0 <= i < |r.trace| ==> r.trace[i].InLoop()
    ensures r.result.Return? <==> |Handled(events)| == |events| || events[|Handled(events)|].EndOfEvents?
    ensures r.result.Throw? ==>
              |Handled(events)| < |events| &&
              r.result.raised == (if events[|Handled(events)|].PullThrows? then events[|Handled(events)|].raised
                                  else events[|Handled(events)|].inject.raised)
    decreases |events|
  {
    if |events| == 0 then Run([NextEvent], Return(()))
    else
      match events[0]
      case EndOfEvents => Run([NextEvent], Return(()))
      case PullThrows(raised) => Run([NextEvent], Throw(raised))
      case Next(event, InjectThrows(raised)) => Run([NextEvent, Inject(event)], Throw(raised))
      case Next(event, Code(code)) =>
        var rest := Loop(events[1..]);
        Run([NextEvent, Inject(event)] + CodeLog(code) + rest.trace, rest.result)
  }

  /**
   * The loop pulls once per handled event plus the pull that ends it, and
   * injects exactly the events it reaches, in script order.
   */
  lemma {:induction false} LoopMeasures(events: seq<Pull>)
    ensures Count(Loop(events).trace, NextEvent) == |Handled(events)| + 1
    ensures Injections(Loop(events).trace) == EventsOf(Reached(events))
    decreases |events|
  {
    if |events| == 0 {
      assert Loop(events).trace == [NextEvent];
      assert Reached(events) == [] && Handled(events) == [];
    } else if Continues(events[0]) {
      LoopMeasures(events[1..]);
      var head := [NextEvent, Inject(events[0].event)] + CodeLog(events[0].inject.code);
      LoopStep(events, head, Loop(events[1..]).trace);
      assert Loop(events).trace == head + Loop(events[1..]).trace;
    } else if events[0].Next? {
      var e := events[0].event;
      assert Loop(events).trace == [NextEvent, Inject(e)];
      assert Handled(events) == [] && Reached(events) == [events[0]];
      assert EventsOf([events[0]]) == [e] by {
        assert [events[0]][1..] == [];
      }
      StepCounts(e, Injected);
      assert [NextEvent, Inject(e)] + CodeLog(Injected) == [NextEvent, Inject(e)];
    } else {
      assert Loop(events).trace == [NextEvent];
      assert Handled(events) == [] && Reached(events) == [events[0]];
      assert EventsOf([events[0]]) == [] by {
        assert [events[0]][1..] == [];
      }
    }
  }


  /** The actions of one continuing step: one pull, one injection, at most one log line. */
  lemma StepCounts(event: Event, code: InjectCode)
    ensures Count([NextEvent, Inject(event)] + CodeLog(code), NextEvent) == 1
    ensures Injections([NextEvent, Inject(event)] + CodeLog(code)) == [event]
  {
    var pair := [NextEvent, Inject(event)];
    var log := CodeLog(code);
    assert pair[1..] == [Inject(event)];
    assert pair[1..][1..] == [];
    assert |log| == 0 || log[1..] == [];
    CountAppend(pair, log, NextEvent);
    NoInjections(log);
    InjectionsAppend(pair, log);
  }

  /** How the trace measures of `Loop` extend by one continuing step. */
  lemma LoopStep(events: seq<Pull>, head: seq<Action>, rest: seq<Action>)
    requires |events| > 0 && Continues(events[0])
    requires head == [NextEvent, Inject(events[0].event)] + CodeLog(events[0].inject.code)
    ensures Injections(head + rest) == [events[0].event] + Injections(rest)
    ensures Count(head + rest, NextEvent) == 1 + Count(rest, NextEvent)
  {
    StepCounts(events[0].event, events[0].inject.code);
    InjectionsAppend(head, rest);
    CountAppend(head, rest, NextEvent);
  }

  /**
   * The loop logs "Injection Failed" once per handled injection that returned
   * `INJECT_FAIL`, the RemoteException error once per `INJECT_ERROR_REMOTE_EXCEPTION`,
   * and the SecurityException error once per `INJECT_ERROR_SECURITY_EXCEPTION`.
   */
  lemma {:induction false} LoopFailureLines(events: seq<Pull>)
    ensures Count(Loop(events).trace, InjectFailedLine) == CodeCount(Handled(events), InjectFail)
    ensures Count(Loop(events).trace, RemoteErrorLine) == CodeCount(Handled(events), RemoteError)
    ensures Count(Loop(events).trace, SecurityErrorLine) == CodeCount(Handled(events), SecurityError)
  {
    LoopLogLines(events, InjectFailedLine, InjectFail);
    LoopLogLines(events, RemoteErrorLine, RemoteError);
    LoopLogLines(events, SecurityErrorLine, SecurityError);
  }

  /** The loop logs `line` once per handled injection that returned the code the line reports. */
  lemma {:induction false} LoopLogLines(events: seq<Pull>, line: Action, code: InjectCode)
    requires LoggedCode(line) == Some(code)
    ensures Count(Loop(events).trace, line) == CodeCount(Handled(events), code)
    decreases |events|
  {
    if |events| == 0 {
      assert Loop(events).trace == [NextEvent];
    } else if Continues(events[0]) {
      LoopLogLines(events[1..], line, code);
      var head := [NextEvent, Inject(events[0].event)] + CodeLog(events[0].inject.code);
      assert Loop(events).trace == head + Loop(events[1..]).trace;
      StepLog(events[0].event, events[0].inject.code, line, code);
      CountAppend(head, Loop(events[1..]).trace, line);
      assert Handled(events) == [events[0]] + Handled(events[1..]);
      assert Handled(events)[1..] == Handled(events[1..]);
    } else if events[0].Next? {
      assert Loop(events).trace == [NextEvent, Inject(events[0].event)];
      CountAbsent(Loop(events).trace, line);
    } else {
      assert Loop(events).trace == [NextEvent];
    }
  }

  /** One continuing step logs `line` exactly when its injection returned the code the line reports. */
  lemma StepLog(event: Event, injected: InjectCode, line: Action, code: InjectCode)
    requires LoggedCode(line) == Some(code)
    ensures Count([NextEvent, Inject(event)] + CodeLog(injected), line) == (if injected == code then 1 else 0)
  {
    var pair := [NextEvent, Inject(event)];
    var log := CodeLog(injected);
    assert pair[1..] == [Inject(event)];
    assert pair[1..][1..] == [];
    assert |log| == 0 || log[1..] == [];
    CountAppend(pair, log, line);
  }

  /** `runMonkeyCycles`: a `RuntimeException` from the loop is logged and swallowed; the result is always 0. */
  function RunMonkeyCycles(events: seq<Pull>): (r: Run<int>)
    ensures r.result.Return? ==> r.result.value == 0
    ensures r.result.Throw? <==> Loop(events).result == Throw(OtherThrowable)
    ensures r.trace == Loop(events).trace + (if Loop(events).result == Throw(Runtime) then [RuntimeErrorLine] else [])
  {
    var loop := Loop(events);
    match loop.result
    case Return(_) => Run(loop.trace, Return(0))
    case Throw(Runtime) => Run(loop.trace + [RuntimeErrorLine], Return(0))
    case Throw(OtherThrowable) => Run(loop.trace, Throw(OtherThrowable))
  }

  // ---------------------------------------------------------------- run

  /** The exit code `run` returns when a system handle is missing. */
  const NO_SYSTEM_INTERFACES := -3

  /**
   * `run`: acquire the handles (or return -3), open the event source, run the
   * cycles inside `try`, restore the rotation in `finally`, then deregister
   * the controller and return 0. A throw from the restore replaces whatever
   * the cycles ended with, as a throw from a Java `finally` block does.
   */
  function RunMonkey(p: Platform): (r: Run<int>)
    ensures r.result.Return? ==> r.result.value in {0, NO_SYSTEM_INTERFACES}
    ensures r.result == Return(NO_SYSTEM_INTERFACES) <==> !HandlesAvailable(p)
  {
    var acquire := GetSystemInterfaces(p);
    match acquire.result
    case Throw(raised) => Run(acquire.trace, Throw(raised))
    case Return(false) => Run(acquire.trace, Return(NO_SYSTEM_INTERFACES))
    case Return(true) =>
      var cycles := RunMonkeyCycles(p.events);
      var body := acquire.trace + [OpenEventSource, PrintHelp] + cycles.trace + [RestoreRotation];
      if p.restore.InjectThrows? then Run(body, Throw(p.restore.raised))
      else if cycles.result.Throw? then Run(body, Throw(cycles.result.raised))
      else
        match p.deregister
        case Ok => Run(body + [ClearController], Return(0))
        case Fails(raised) => Run(body + [ClearController], Throw(raised))
  }

  /** The session started: every handle was found and the controller registered. */
  predicate Started(p: Platform) {
    HandlesAvailable(p) && RegistrationCompletes(p)
  }

  /** The `finally` block completed and the cycles did not end in a non-runtime throw. */
  predicate ReachesDeregistration(p: Platform) {
    Started(p) && p.restore.Code? && Loop(p.events).result != Throw(OtherThrowable)
  }

  /** Without all three handles, `run` only performs acquisition steps and returns -3. */
  lemma RunWithoutHandles(p: Platform)
    requires !HandlesAvailable(p)
    ensures RunMonkey(p).result == Return(NO_SYSTEM_INTERFACES)
    ensures forall i :: 0 <= i < |RunMonkey(p).trace| ==> RunMonkey(p).trace[i].InAcquire()
    ensures exists i :: 0 <= i < |RunMonkey(p).trace| && RunMonkey(p).trace[i].ConnectError?
    ensures SetController(true) !in RunMonkey(p).trace
  {
    AcquireCalls(p);
    var trace := RunMonkey(p).trace;
    var s :| ConnectError(s) in trace;
    var i :| 0 <= i < |trace| && trace[i] == ConnectError(s);
  }

  /** What a started session does before its event loop: acquisition, then opening the source. */
  function BeforeLoop(p: Platform): (before: seq<Action>)
    ensures forall i :: 0 <= i < |before| ==>
              !before[i].InLoop() && before[i] !in {RuntimeErrorLine, RestoreRotation, ClearController}
  {
    var acquire := GetSystemInterfaces(p).trace;
    assert forall i :: 0 <= i < |acquire| ==> acquire[i].InAcquire();
    acquire + [OpenEventSource, PrintHelp]
  }

  /** What a started session does after its event loop: the runtime error line, the restore, the deregistration. */
  function AfterLoop(p: Platform): (after: seq<Action>)
    ensures forall i :: 0 <= i < |after| ==> after[i] in {RuntimeErrorLine, RestoreRotation, ClearController}
  {
    (if Loop(p.events).result == Throw(Runtime) then [RuntimeErrorLine] else [])
    + [RestoreRotation] + (if ReachesDeregistration(p) then [ClearController] else [])
  }

  /** The trace of a started session, piece by piece. */
  lemma StartedTrace(p: Platform)
    requires Started(p)
    ensures var body := GetSystemInterfaces(p).trace + [OpenEventSource, PrintHelp]
                        + RunMonkeyCycles(p.events).trace + [RestoreRotation];
            RunMonkey(p).trace == body + (if ReachesDeregistration(p) then [ClearController] else [])
    ensures RunMonkey(p).trace == BeforeLoop(p) + Loop(p.events).trace + AfterLoop(p)
  {
  }

  /** One restore, at most one deregistration, and nothing but a deregistration after the restore. */
  predicate RestoredOnceAtEnd(trace: seq<Action>) {
    Count(trace, RestoreRotation) == 1 && Count(trace, ClearController) <= 1 &&
    |trace| > 0 &&
    (trace[|trace| - 1] == RestoreRotation ||
     (|trace| >= 2 && trace[|trace| - 2..] == [RestoreRotation, ClearController]))
  }

  /**
   * Once the session started, the rotation is restored exactly once, after
   * every event injection, and the only thing that may follow is one
   * deregistration of the controller.
   */
  lemma RunRestoresOnce(p: Platform)
    requires Started(p)
    ensures RestoredOnceAtEnd(RunMonkey(p).trace)
  {
    var before := BeforeLoop(p);
    var loop := Loop(p.events).trace;
    var line: seq<Action> := if Loop(p.events).result == Throw(Runtime) then [RuntimeErrorLine] else [];
    var tail: seq<Action> := if ReachesDeregistration(p) then [ClearController] else [];
    StartedTrace(p);
    assert RunMonkey(p).trace == (before + loop + line) + [RestoreRotation] + tail;
    NoRestoreBeforeAfterLoop(before, loop, line);
    RestoreLast(before + loop + line, tail);
  }

  /** Acquisition, the loop and the runtime error line hold no restore and no deregistration. */
  lemma NoRestoreBeforeAfterLoop(before: seq<Action>, loop: seq<Action>, line: seq<Action>)
    requires forall i :: 0 <= i < |before| ==> before[i] !in {RestoreRotation, ClearController}
    requires forall i :: 0 <= i < |loop| ==> loop[i].InLoop()
    requires line == [] || line == [RuntimeErrorLine]
    ensures forall i :: 0 <= i < |before + loop + line| ==>
              (before + loop + line)[i] != RestoreRotation && (before + loop + line)[i] != ClearController
  {
    var front := before + loop + line;
    forall i | 0 <= i < |front|
      ensures front[i] != RestoreRotation && front[i] != ClearController
    {
      if i < |before| {
        assert front[i] == before[i];
      } else if i < |before| + |loop| {
        assert front[i] == loop[i - |before|];
      }
    }
  }

  /** A trace free of restores and deregistrations, then one restore, then at most one deregistration. */
  lemma RestoreLast(front: seq<Action>, tail: seq<Action>)
    requires forall i :: 0 <= i < |front| ==> front[i] != RestoreRotation && front[i] != ClearController
    requires tail == [] || tail == [ClearController]
    ensures RestoredOnceAtEnd(front + [RestoreRotation] + tail)
  {
    CountAbsent(front, RestoreRotation);
    CountAbsent(front, ClearController);
    CountAppend(front + [RestoreRotation], tail, RestoreRotation);
    CountAppend(front, [RestoreRotation], RestoreRotation);
    CountAppend(front + [RestoreRotation], tail, ClearController);
    CountAppend(front, [RestoreRotation], ClearController);
  }

  /**
   * How `run` completes: -3 without handles; 0 only after the restore, the
   * cycles and the deregistration all completed; a throw from the restore
   * wins over one from the cycles; a `RuntimeException` from the cycles is
   * logged and does not stop the deregistration.
   */
  lemma RunCompletion(p: Platform)
    ensures ClearController in RunMonkey(p).trace <==> ReachesDeregistration(p)
    ensures RunMonkey(p).result == Return(0) <==> ReachesDeregistration(p) && p.deregister.Ok?
    ensures Started(p) && p.restore.InjectThrows? ==> RunMonkey(p).result == Throw(p.restore.raised)
    ensures RuntimeErrorLine in RunMonkey(p).trace <==> Started(p) && Loop(p.events).result == Throw(Runtime)
  {
    var trace := RunMonkey(p).trace;
    var acquire := GetSystemInterfaces(p).trace;
    if Started(p) {
      StartedTrace(p);
      var cycles := RunMonkeyCycles(p.events).trace;
      var loop := Loop(p.events).trace;
      var front := acquire + [OpenEventSource, PrintHelp];
      var tail: seq<Action> := if ReachesDeregistration(p) then [ClearController] else [];
      assert trace == front + cycles + [RestoreRotation] + tail;
      assert ClearController !in front + cycles;
      assert ClearController in trace <==> ClearController in tail;
      assert RuntimeErrorLine !in front + loop;
      assert RuntimeErrorLine in trace <==> RuntimeErrorLine in cycles;
    } else {
      assert forall i :: 0 <= i < |trace| ==> trace[i].InAcquire();
    }
  }

  /** Injections and pulls of a trace are those of its loop part when the rest has none. */
  lemma AroundLoop(before: seq<Action>, loop: seq<Action>, after: seq<Action>)
    requires forall i :: 0 <= i < |before| ==> !before[i].Inject? && before[i] != NextEvent
    requires forall i :: 0 <= i < |after| ==> !after[i].Inject? && after[i] != NextEvent
    ensures Injections(before + loop + after) == Injections(loop)
    ensures Count(before + loop + after, NextEvent) == Count(loop, NextEvent)
  {
    NoInjections(before);
    NoInjections(after);
    CountAbsent(before, NextEvent);
    CountAbsent(after, NextEvent);
    InjectionsAppend(before + loop, after);
    InjectionsAppend(before, loop);
    CountAppend(before + loop, after, NextEvent);
    CountAppend(before, loop, NextEvent);
  }

  /** A started session injects exactly the events the loop reaches, in script order. */
  lemma RunInjections(p: Platform)
    requires Started(p)
    ensures Injections(RunMonkey(p).trace) == EventsOf(Reached(p.events))
    ensures Count(RunMonkey(p).trace, NextEvent) == |Handled(p.events)| + 1
  {
    StartedTrace(p);
    LoopMeasures(p.events);
    AroundLoop(BeforeLoop(p), Loop(p.events).trace, AfterLoop(p));
  }

  // ---------------------------------------------------------------- scenarios

  /** A platform where every handle is found and registration succeeds at once. */
  function Healthy(events: seq<Pull>): (p: Platform)
    ensures Started(p)
  {
    Platform(Handle, false, true, true, Ok, Ok, events, Code(Injected), Ok)
  }

  /** Three events injected successfully, then the end of the stream: exit 0, one restore, one deregistration. */
  lemma ThreeEventsScenario(a: Event, b: Event, c: Event)
    ensures var p := Healthy([Next(a, Code(Injected)), Next(b, Code(Injected)), Next(c, Code(Injected)), EndOfEvents]);
            RunMonkey(p).result == Return(0) &&
            Injections(RunMonkey(p).trace) == [a, b, c] &&
            Count(RunMonkey(p).trace, RestoreRotation) == 1 &&
            Count(RunMonkey(p).trace, ClearController) == 1
  {
    var events := [Next(a, Code(Injected)), Next(b, Code(Injected)), Next(c, Code(Injected)), EndOfEvents];
    ThreeEventsLoop(a, b, c);
    var p := Healthy(events);
    RunInjections(p);
    RunRestoresOnce(p);
    RunCompletion(p);
    CountAbsent(RunMonkey(p).trace, ClearController);
  }

  lemma ThreeEventsLoop(a: Event, b: Event, c: Event)
    ensures var events := [Next(a, Code(Injected)), Next(b, Code(Injected)), Next(c, Code(Injected)), EndOfEvents];
            EventsOf(Reached(events)) == [a, b, c] && Loop(events).result.Return?
  {
    var events := [Next(a, Code(Injected)), Next(b, Code(Injected)), Next(c, Code(Injected)), EndOfEvents];
    assert Reached(events[3..]) == [EndOfEvents] && EventsOf([EndOfEvents]) == [];
    ReachedStep(events[2..]);
    ReachedStep(events[1..]);
    ReachedStep(events);
    assert events[2..][1..] == events[3..];
    assert events[1..][1..] == events[2..];
  }

  /** A continuing first pull adds its event in front of what the rest of the script reaches. */
  lemma ReachedStep(events: seq<Pull>)
    requires |events| > 0 && Continues(events[0])
    ensures EventsOf(Reached(events)) == [events[0].event] + EventsOf(Reached(events[1..]))
  {
    assert Reached(events) == [events[0]] + Reached(events[1..]);
    assert ([events[0]] + Reached(events[1..]))[1..] == Reached(events[1..]);
  }

  /** A remote error on the second event is logged and the third event is still pulled and injected. */
  lemma RemoteErrorScenario(a: Event, b: Event, c: Event)
    ensures var p := Healthy([Next(a, Code(Injected)), Next(b, Code(RemoteError)), Next(c, Code(Injected))]);
            Injections(RunMonkey(p).trace) == [a, b, c] &&
            Count(RunMonkey(p).trace, NextEvent) == 4 &&
            RemoteErrorLine in RunMonkey(p).trace &&
            RunMonkey(p).result == Return(0)
  {
    var events := [Next(a, Code(Injected)), Next(b, Code(RemoteError)), Next(c, Code(Injected))];
    var p := Healthy(events);
    RemoteErrorLoop(a, b, c);
    RunInjections(p);
    RunCompletion(p);
    assert ReachesDeregistration(p);
    StartedTrace(p);
    assert RunMonkey(p).trace[|BeforeLoop(p)| + 4] == Loop(events).trace[4];
  }

  /** The loop of that script: all three pulls handled, the log line fifth, and a normal return. */
  lemma RemoteErrorLoop(a: Event, b: Event, c: Event)
    ensures var events := [Next(a, Code(Injected)), Next(b, Code(RemoteError)), Next(c, Code(Injected))];
            Handled(events) == events && EventsOf(Reached(events)) == [a, b, c] &&
            Loop(events).result.Return? && |Loop(events).trace| > 4 && Loop(events).trace[4] == RemoteErrorLine
  {
    var events := [Next(a, Code(Injected)), Next(b, Code(RemoteError)), Next(c, Code(Injected))];
    assert events[2..][1..] == [];
    assert events[1..][1..] == events[2..];
    assert EventsOf(events[2..]) == [c];
    assert EventsOf(events[1..]) == [b, c];
    assert Handled(events) == events;
    assert Reached(events) == events;
    assert events[1..][0] == Next(b, Code(RemoteError));
    assert Loop(events[1..]).trace == [NextEvent, Inject(b), RemoteErrorLine] + Loop(events[2..]).trace;
    assert Loop(events).trace == [NextEvent, Inject(a)] + Loop(events[1..]).trace;
  }
}
