/**
 * The `ActivityController` that the monkey registers with the activity
 * manager: six callbacks, each of which logs a few lines, may update the
 * session's current package and intent, and answers the activity manager.
 * The answers never depend on the arguments: starts and resumes are allowed,
 * a crash is always vetoed, an early "not responding" report is answered 0
 * and the other two "not responding" reports -1.
 */
module ActivityController {
  import opened Wrappers
  import Decimal

  type int32 = Decimal.int32

  /** An `Intent`; only its identity matters here. */
  datatype Intent = Intent(descriptor: string)

  /** The static `currentPackage` / `currentIntent` pair; `None` is Java's `null`. */
  datatype Session = Session(currentPackage: Option<string>, currentIntent: Option<Intent>)

  /** The build facts a crash report quotes. */
  datatype Build = Build(fingerprint: string, incremental: string, time: int)

  /** One call from the activity manager, with its arguments. */
  datatype Notification =
    | ActivityStarting(intent: Option<Intent>, pkg: Option<string>)
    | ActivityResuming(pkg: Option<string>)
    | AppCrashed(processName: string, pid: int32, shortMsg: string, longMsg: string, timeMillis: int, stackTrace: string)
    | AppEarlyNotResponding(processName: string, pid: int32, annotation: string)
    | AppNotResponding(processName: string, pid: int32, processStats: string)
    | SystemNotResponding(message: string)

  /** The two kinds of answer: `boolean` (may proceed) and `int` (verdict code). */
  datatype Answer = Proceed(allow: bool) | Verdict(code: int32)

  datatype Stream = Out | Err

  /** One `println` on the monkey's standard output or error logger. */
  datatype Line = Line(stream: Stream, text: string)

  datatype Reaction = Reaction(session: Session, answer: Answer, log: seq<Line>)

  /** Java string concatenation of a possibly-null string. */
  function Show(s: Option<string>): string {
    match s
    case None => "null"
    case Some(text) => text
  }

  // ---------------------------------------------------------------- the stack-trace comment block

  /** `s.replace("\n", "\n// ")`: every newline is followed by a comment marker. */
  function Escape(s: string): (r: string)
    ensures |r| >= |s|
    ensures forall i :: 0 <= i < |r| && r[i] == '\n' ==> i + 3 < |r| && r[i + 1..i + 4] == "// "
  {
    if |s| == 0 then ""
    else
      var rest := Escape(s[1..]);
      var head := if s[0] == '\n' then "\n// " else [s[0]];
      EscapeStep(head, rest);
      head + rest
  }

  /** Prepending one escaped character keeps every newline followed by a comment marker. */
  lemma EscapeStep(head: string, rest: string)
    requires head == "\n// " || (|head| == 1 && head[0] != '\n')
    requires forall i :: 0 <= i < |rest| && rest[i] == '\n' ==> i + 3 < |rest| && rest[i + 1..i + 4] == "// "
    ensures forall i :: 0 <= i < |head + rest| && (head + rest)[i] == '\n' ==>
              i + 3 < |head + rest| && (head + rest)[i + 1..i + 4] == "// "
  {
    var r := head + rest;
    forall i | 0 <= i < |r| && r[i] == '\n'
      ensures i + 3 < |r| && r[i + 1..i + 4] == "// "
    {
      if i < |head| {
        assert i == 0 && head == "\n// ";
        assert r[1..4] == head[1..4];
      } else {
        var k := i - |head|;
        assert r[i] == rest[k];
        assert r[i + 1..i + 4] == rest[k + 1..k + 4];
      }
    }
  }

  /** Removes the comment marker after each newline; the inverse of `Escape`. */
  function Unescape(r: string): string {
    if |r| == 0 then ""
    else if r[0] == '\n' && |r| >= 4 && r[1..4] == "// " then "\n" + Unescape(r[4..])
    else [r[0]] + Unescape(r[1..])
  }

  lemma {:induction false} UnescapeEscape(s: string)
    ensures Unescape(Escape(s)) == s
  {
    if |s| > 0 {
      UnescapeEscape(s[1..]);
      var rest := Escape(s[1..]);
      if s[0] == '\n' {
        assert Escape(s) == "\n// " + rest;
        assert Escape(s)[4..] == rest;
      } else {
        assert Escape(s) == [s[0]] + rest;
        assert Escape(s)[1..] == rest;
      }
    }
  }

  /** The last line of a crash report: the stack trace with every line commented out. */
  function CommentBlock(stackTrace: string): (r: string)
    ensures |r| >= 3 && r[..3] == "// "
    ensures forall i :: 0 <= i < |r| && r[i] == '\n' ==> i + 3 < |r| && r[i + 1..i + 4] == "// "
  {
    var body := Escape(stackTrace);
    assert forall i :: 0 <= i < |body| ==> ("// " + body)[3 + i] == body[i];
    "// " + body
  }

  /** Reads the stack trace back out of a comment block. */
  function Uncomment(line: string): Option<string> {
    if |line| >= 3 && line[..3] == "// " then Some(Unescape(line[3..])) else None
  }

  lemma UncommentCommentBlock(stackTrace: string)
    ensures Uncomment(CommentBlock(stackTrace)) == Some(stackTrace)
  {
    assert CommentBlock(stackTrace)[3..] == Escape(stackTrace);
    UnescapeEscape(stackTrace);
  }

  // ---------------------------------------------------------------- the callbacks

  /** The seven error lines `appCrashed` prints. */
  function CrashReport(build: Build, processName: string, pid: int32, shortMsg: string, longMsg: string,
                       stackTrace: string): (lines: seq<Line>)
    ensures |lines| == 7
    ensures forall i :: 0 <= i < 7 ==> lines[i].stream == Err && |lines[i].text| >= 3 && lines[i].text[..3] == "// "
    ensures Uncomment(lines[6].text) == Some(stackTrace)
  {
    UncommentCommentBlock(stackTrace);
    [ Line(Err, "// CRASH: " + processName + " (pid " + Decimal.ToString(pid) + ")"),
      Line(Err, "// Short Msg: " + shortMsg),
      Line(Err, "// Long Msg: " + longMsg),
      Line(Err, "// Build Label: " + build.fingerprint),
      Line(Err, "// Build Changelist: " + build.incremental),
      Line(Err, "// Build Time: " + Decimal.ToString(build.time)),
      Line(Err, CommentBlock(stackTrace)) ]
  }

  /** One callback: what it logs, how the session changes, and the answer. */
  function Handle(build: Build, s: Session, n: Notification): (r: Reaction)
    ensures r.session.currentIntent == (if n.ActivityStarting? then n.intent else s.currentIntent)
    ensures r.session.currentPackage == (if n.ActivityStarting? || n.ActivityResuming? then n.pkg else s.currentPackage)
    ensures r.answer.Proceed? <==> n.ActivityStarting? || n.ActivityResuming? || n.AppCrashed?
  {
    match n
    case ActivityStarting(intent, pkg) =>
      Reaction(Session(pkg, intent), Proceed(true), [Line(Out, "    // activityStarting(" + Show(pkg) + ")")])
    case ActivityResuming(pkg) =>
      Reaction(s.(currentPackage := pkg), Proceed(true), [Line(Out, "    // activityResuming(" + Show(pkg) + ")")])
    case AppCrashed(processName, pid, shortMsg, longMsg, _, stackTrace) =>
      Reaction(s, Proceed(false), CrashReport(build, processName, pid, shortMsg, longMsg, stackTrace))
    case AppEarlyNotResponding(processName, _, _) =>
      Reaction(s, Verdict(0), [Line(Out, "    // appEarlyNotResponding(" + processName + ")")])
    case AppNotResponding(processName, pid, processStats) =>
      Reaction(s, Verdict(-1), [ Line(Err, "// NOT RESPONDING: " + processName + " (pid " + Decimal.ToString(pid) + ")"),
                                 Line(Err, processStats) ])
    case SystemNotResponding(message) =>
      Reaction(s, Verdict(-1), [Line(Err, "// WATCHDOG: " + message)])
  }

  /** Two notifications of the same callback. */
  predicate SameCallback(a: Notification, b: Notification) {
    (a.ActivityStarting? && b.ActivityStarting?) || (a.ActivityResuming? && b.ActivityResuming?) ||
    (a.AppCrashed? && b.AppCrashed?) || (a.AppEarlyNotResponding? && b.AppEarlyNotResponding?) ||
    (a.AppNotResponding? && b.AppNotResponding?) || (a.SystemNotResponding? && b.SystemNotResponding?)
  }

  /** The answer depends on which callback runs, never on its arguments, the session or the build. */
  lemma AnswerIgnoresArguments(b1: Build, s1: Session, n1: Notification, b2: Build, s2: Session, n2: Notification)
    requires SameCallback(n1, n2)
    ensures Handle(b1, s1, n1).answer == Handle(b2, s2, n2).answer
  {
  }

  /**
   * The monkey never blocks an activity from starting or resuming, always
   * vetoes a crash, and answers 0 only to an early "not responding" report.
   */
  lemma Answers(b: Build, s: Session, n: Notification)
    ensures Handle(b, s, n).answer == Proceed(false) <==> n.AppCrashed?
    ensures Handle(b, s, n).answer == Proceed(true) <==> n.ActivityStarting? || n.ActivityResuming?
    ensures Handle(b, s, n).answer == Verdict(0) <==> n.AppEarlyNotResponding?
    ensures Handle(b, s, n).answer == Verdict(-1) <==> n.AppNotResponding? || n.SystemNotResponding?
  {
  }

  /** Only the "not responding" callbacks and the crash report log on the error stream. */
  lemma ErrorStreamUse(b: Build, s: Session, n: Notification)
    ensures (exists i :: 0 <= i < |Handle(b, s, n).log| && Handle(b, s, n).log[i].stream == Err)
            <==> n.AppCrashed? || n.AppNotResponding? || n.SystemNotResponding?
  {
    var log := Handle(b, s, n).log;
    if n.AppCrashed? || n.AppNotResponding? || n.SystemNotResponding? {
      assert log[0].stream == Err;
    }
  }

  // ---------------------------------------------------------------- a sequence of callbacks

  /** The session after the callbacks run in order. */
  function HandleAll(build: Build, s: Session, ns: seq<Notification>): Session
    decreases |ns|
  {
    if |ns| == 0 then s else HandleAll(build, Handle(build, s, ns[0]).session, ns[1..])
  }

  /** Reference: the package of the last start or resume, else the initial one. */
  function LatestPackage(ns: seq<Notification>, initial: Option<string>): Option<string>
    decreases |ns|
  {
    if |ns| == 0 then initial
    else if ns[|ns| - 1].ActivityStarting? || ns[|ns| - 1].ActivityResuming? then ns[|ns| - 1].pkg
    else LatestPackage(ns[..|ns| - 1], initial)
  }

  /** Reference: the intent of the last start, else the initial one. */
  function LatestIntent(ns: seq<Notification>, initial: Option<Intent>): Option<Intent>
    decreases |ns|
  {
    if |ns| == 0 then initial
    else if ns[|ns| - 1].ActivityStarting? then ns[|ns| - 1].intent
    else LatestIntent(ns[..|ns| - 1], initial)
  }

  lemma {:induction false} HandleAllSnoc(build: Build, s: Session, ns: seq<Notification>, n: Notification)
    ensures HandleAll(build, s, ns + [n]) == Handle(build, HandleAll(build, s, ns), n).session
    decreases |ns|
  {
    if |ns| == 0 {
      assert ([] + [n])[1..] == [];
    } else {
      assert (ns + [n])[0] == ns[0];
      assert (ns + [n])[1..] == ns[1..] + [n];
      HandleAllSnoc(build, Handle(build, s, ns[0]).session, ns[1..], n);
    }
  }

  /**
   * After any run of callbacks, the current package is the one named by the
   * last start or resume, and the current intent the one of the last start;
   * with neither, the session is as it was.
   */
  lemma {:induction false} HandleAllSession(build: Build, s: Session, ns: seq<Notification>)
    ensures HandleAll(build, s, ns).currentPackage == LatestPackage(ns, s.currentPackage)
    ensures HandleAll(build, s, ns).currentIntent == LatestIntent(ns, s.currentIntent)
    decreases |ns|
  {
    if |ns| > 0 {
      var front := ns[..|ns| - 1];
      assert ns == front + [ns[|ns| - 1]];
      HandleAllSnoc(build, s, front, ns[|ns| - 1]);
      HandleAllSession(build, s, front);
    }
  }
}
