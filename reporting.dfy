/**
 * What the user is told: the parser's refusals, the classification of capture failures, and the
 * image reply with its scheduled cleanup. `Respond` is the whole handler as a function of the
 * files on disk and of what the browser session does.
 */
module Reporting {
  import opened Wrappers
  import opened Strings
  import opened Commands
  import opened Naming

  /** What the handler ends with: a plain text, an image file, or an exception that escapes it
      (nothing is sent). */
  datatype Reply = Text(message: string) | Image(path: string) | Unhandled(exception: string)

  const CaptureFailedPrefix := "❌ 截图失败："
  const ModuleNotFoundPrefix := "❌ 未找到模块"
  const ModuleNotFoundSuffix := "，请确认页面是否存在该内容"
  const MissingFileMessage := "❌ 截图文件不存在，发送失败"

  /**
   * The text for an exception raised while capturing: a module-not-found text when the error
   * mentions `selector` and an element was being captured, the generic failure text otherwise.
   */
  function FailureMessage(error: string, elementId: Option<string>): (m: string)
    ensures StartsWith(m, ModuleNotFoundPrefix) <==>
      Contains(error, "selector") && elementId.Some? && elementId.value != []
    ensures StartsWith(m, ModuleNotFoundPrefix) ==>
      |m| == |ModuleNotFoundPrefix| + |elementId.value| + |ModuleNotFoundSuffix| &&
      m[|ModuleNotFoundPrefix|..|m| - |ModuleNotFoundSuffix|] == elementId.value &&
      m[|m| - |ModuleNotFoundSuffix|..] == ModuleNotFoundSuffix
    ensures !StartsWith(m, ModuleNotFoundPrefix) ==>
      StartsWith(m, CaptureFailedPrefix) && m[|CaptureFailedPrefix|..] == error
  {
    if Contains(error, "selector") && elementId.Some? && elementId.value != [] then
      var m := ModuleNotFoundPrefix + elementId.value + ModuleNotFoundSuffix;
      assert m[..|ModuleNotFoundPrefix|] == ModuleNotFoundPrefix;
      assert m[|ModuleNotFoundPrefix|..|m| - |ModuleNotFoundSuffix|] == elementId.value;
      assert m[|m| - |ModuleNotFoundSuffix|..] == ModuleNotFoundSuffix;
      m
    else
      var m := CaptureFailedPrefix + error;
      assert m[..|CaptureFailedPrefix|] == CaptureFailedPrefix;
      assert m[2] == '截' && ModuleNotFoundPrefix[2] == '未';
      m
  }

  /** What the browser session does once the command is understood. */
  datatype Session =
    | LaunchFailed(error: string)
      // starting Playwright, launching the browser, or opening its context or page raised
    | NavigationFailed(error: string)
      // loading the page raised (its 60 s timeout included)
    | CaptureFailed(error: string, written: bool)
      // waiting for the element (15 s), scrolling, the screenshot, closing the browser or leaving the
      // Playwright context raised; `written` tells whether the PNG had been written by then
    | Captured(written: bool)
      // the session completed; whether the PNG was written at the path asked for

  /** The handler's reply, the path whose deferred cleanup it schedules, the files afterwards, and the
      page the browser was sent to (none when no browser was launched). */
  datatype Response = Response(reply: Reply, cleanup: Option<string>, files: set<string>, page: Option<string>)

  /** The command handler: parse, load, name, capture, then reply from what is on disk. */
  function Respond(tempDir: string, files: set<string>, message: string, messageId: string, session: Session): (r: Response)
    ensures files <= r.files
    ensures r.reply.Unhandled? <==> ParseCommand(message).Raised?
    ensures r.cleanup.Some? <==> r.reply.Image?
    ensures r.reply.Image? ==> r.cleanup == Some(r.reply.path) && r.reply.path in r.files
  {
    Answer(tempDir, files, CommandText(message), ParseCommand(message), messageId, session)
  }

  /** The handler once the command text and its parse are known. */
  function Answer(tempDir: string, files: set<string>, command: string, parse: Parse, messageId: string, session: Session): (r: Response)
    ensures files <= r.files
    ensures r.reply.Unhandled? <==> parse.Raised?
    ensures r.cleanup.Some? <==> r.reply.Image?
    ensures r.reply.Image? ==> r.cleanup == Some(r.reply.path) && r.reply.path in r.files
    ensures r.page == if parse.Parsed? && !session.LaunchFailed? then Some(TargetUrl(parse.intent)) else None
  {
    match parse
    case Raised(x) => Response(Unhandled(x), None, files, None)
    case Rejected(e) => Response(Text(ErrorMessage(e)), None, files, None)
    case Parsed(intent) =>
      var o := Deliver(tempDir, files, intent, command, messageId, session);
      Response(o.reply, o.cleanup, o.files, if session.LaunchFailed? then None else Some(TargetUrl(intent)))
  }

  /** What the browser session leaves behind for a parsed command: the reply, the scheduled cleanup
      and the files afterwards. */
  datatype Outcome = Outcome(reply: Reply, cleanup: Option<string>, files: set<string>)

  /** The handler from starting the browser on: load, name, capture, then reply from what is on
      disk. */
  function Deliver(tempDir: string, files: set<string>, intent: Intent, command: string, messageId: string, session: Session): (o: Outcome)
    ensures files <= o.files
    ensures o.reply.Text? || o.reply.Image?
    ensures o.cleanup.Some? <==> o.reply.Image?
    ensures o.reply.Image? ==> o.cleanup == Some(o.reply.path) && o.reply.path in o.files
  {
    var elementId := ElementId(intent);
    if session.LaunchFailed? || session.NavigationFailed? then Outcome(Text(FailureMessage(session.error, elementId)), None, files)
    else
      match ScreenshotName(intent, command, messageId)
      case Err(e) => Outcome(Text(FailureMessage(e, elementId)), None, files)
      case Ok(name) =>
        var path := ScreenshotPath(tempDir, name);
        var after := if session.written then files + {path} else files;
        if session.CaptureFailed? then Outcome(Text(FailureMessage(session.error, elementId)), None, after)
        else if path in after then Outcome(Image(path), Some(path), after)
        else Outcome(Text(MissingFileMessage), None, after)
  }

  /** The path a capture is written to: none for a command that is not parsed, or whose file
      cannot be named. */
  function CapturePath(tempDir: string, command: string, parse: Parse, messageId: string): Option<string> {
    if parse.Parsed? && ScreenshotName(parse.intent, command, messageId).Ok? then
      Some(ScreenshotPath(tempDir, ScreenshotName(parse.intent, command, messageId).value))
    else None
  }

  /** The capture that stays on disk with no cleanup scheduled: the PNG written before the session
      raised. */
  function LeftBehind(tempDir: string, command: string, parse: Parse, messageId: string, session: Session): set<string> {
    var p := CapturePath(tempDir, command, parse, messageId);
    if session.CaptureFailed? && session.written && p.Some? then {p.value} else {}
  }

  // ------------------------------------------------------------------ properties

  /** A refused command is answered with the refusal's text; no browser is launched and nothing is
      captured or scheduled. */
  lemma RefusalIsPlainText(tempDir: string, files: set<string>, message: string, messageId: string, session: Session)
    requires ParseCommand(message).Rejected?
    ensures Respond(tempDir, files, message, messageId, session) ==
      Response(Text(ErrorMessage(ParseCommand(message).error)), None, files, None)
  {
  }

  /** A tier over `int()`'s digit limit makes the handler raise before any reply: nothing is sent,
      no browser is launched, nothing is written. */
  lemma IntLimitEscapes(tempDir: string, files: set<string>, message: string, messageId: string, session: Session)
    requires ParseCommand(message).Raised?
    ensures Respond(tempDir, files, message, messageId, session) ==
      Response(Unhandled(ParseCommand(message).exception), None, files, None)
  {
  }

  /** The browser is sent to the intent's page exactly when the command is parsed and the browser
      was started. */
  lemma PageLoaded(tempDir: string, files: set<string>, message: string, messageId: string, session: Session)
    ensures Respond(tempDir, files, message, messageId, session).page ==
      if ParseCommand(message).Parsed? && !session.LaunchFailed? then Some(TargetUrl(ParseCommand(message).intent)) else None
  {
    AnswerPage(tempDir, files, CommandText(message), ParseCommand(message), messageId, session);
  }

  lemma AnswerPage(tempDir: string, files: set<string>, command: string, parse: Parse, messageId: string, session: Session)
    ensures Answer(tempDir, files, command, parse, messageId, session).page ==
      if parse.Parsed? && !session.LaunchFailed? then Some(TargetUrl(parse.intent)) else None
  {
  }

  /**
   * An image is sent exactly when the session completed and the named file exists afterwards; the
   * image's path is the file's path and it is the one path scheduled for cleanup. A completed
   * session whose file is missing gets the missing-file text.
   */
  lemma ImageExactlyWhenFileExists(tempDir: string, files: set<string>, message: string, messageId: string, session: Session)
    ensures var r := Respond(tempDir, files, message, messageId, session);
      var p := CapturePath(tempDir, CommandText(message), ParseCommand(message), messageId);
      (r.reply.Image? <==> session.Captured? && p.Some? && p.value in r.files) &&
      (r.reply.Image? ==> r.reply == Image(p.value) && r.cleanup == Some(p.value) && p.value in r.files) &&
      (r.cleanup.Some? <==> r.reply.Image?) &&
      (session.Captured? && p.Some? && p.value !in r.files ==> r.reply == Text(MissingFileMessage)) &&
      (session == Captured(true) && p.Some? ==> r.reply == Image(p.value))
  {
    AnswerImageExactly(tempDir, files, CommandText(message), ParseCommand(message), messageId, session);
  }

  lemma AnswerImageExactly(tempDir: string, files: set<string>, command: string, parse: Parse, messageId: string, session: Session)
    ensures var r := Answer(tempDir, files, command, parse, messageId, session);
      var p := CapturePath(tempDir, command, parse, messageId);
      (r.reply.Image? <==> session.Captured? && p.Some? && p.value in r.files) &&
      (r.reply.Image? ==> r.reply == Image(p.value) && r.cleanup == Some(p.value) && p.value in r.files) &&
      (r.cleanup.Some? <==> r.reply.Image?) &&
      (session.Captured? && p.Some? && p.value !in r.files ==> r.reply == Text(MissingFileMessage)) &&
      (session == Captured(true) && p.Some? ==> r.reply == Image(p.value))
  {
    if parse.Parsed? {
      DeliverImageExactly(tempDir, files, parse.intent, command, messageId, session);
    }
  }

  lemma DeliverImageExactly(tempDir: string, files: set<string>, intent: Intent, command: string, messageId: string, session: Session)
    ensures var o := Deliver(tempDir, files, intent, command, messageId, session);
      var p := CapturePath(tempDir, command, Parsed(intent), messageId);
      (o.reply.Image? <==> session.Captured? && p.Some? && p.value in o.files) &&
      (o.reply.Image? ==> o.reply == Image(p.value) && o.cleanup == Some(p.value) && p.value in o.files) &&
      (session.Captured? && p.Some? && p.value !in o.files ==> o.reply == Text(MissingFileMessage)) &&
      (session == Captured(true) && p.Some? ==> o.reply == Image(p.value))
  {
    var o := Deliver(tempDir, files, intent, command, messageId, session);
    var name := ScreenshotName(intent, command, messageId);
    if !session.LaunchFailed? && !session.NavigationFailed? && name.Ok? {
      var path := ScreenshotPath(tempDir, name.value);
      assert CapturePath(tempDir, command, Parsed(intent), messageId) == Some(path);
      assert o.files == if session.written then files + {path} else files;
      assert o.reply == if session.CaptureFailed? then Text(FailureMessage(session.error, ElementId(intent)))
        else if path in o.files then Image(path) else Text(MissingFileMessage);
    } else {
      assert o.reply.Text?;
      assert !session.Captured? || CapturePath(tempDir, command, Parsed(intent), messageId).None?;
    }
  }

  /**
   * The handler deletes nothing. Every file it adds is the one scheduled for cleanup, except a
   * capture written before the session raised: that one stays on disk and nothing is scheduled.
   */
  lemma NoFileLeftBehind(tempDir: string, files: set<string>, message: string, messageId: string, session: Session)
    ensures var r := Respond(tempDir, files, message, messageId, session);
      var stray := LeftBehind(tempDir, CommandText(message), ParseCommand(message), messageId, session);
      files <= r.files &&
      r.files - files <= (if r.cleanup.Some? then {r.cleanup.value} else {}) + stray &&
      (stray != {} ==> r.cleanup.None? && stray <= r.files)
  {
    AnswerAddsOnlyCleanup(tempDir, files, CommandText(message), ParseCommand(message), messageId, session);
  }

  lemma AnswerAddsOnlyCleanup(tempDir: string, files: set<string>, command: string, parse: Parse, messageId: string, session: Session)
    ensures var r := Answer(tempDir, files, command, parse, messageId, session);
      var stray := LeftBehind(tempDir, command, parse, messageId, session);
      files <= r.files &&
      r.files - files <= (if r.cleanup.Some? then {r.cleanup.value} else {}) + stray &&
      (stray != {} ==> r.cleanup.None? && stray <= r.files)
  {
    if parse.Parsed? {
      DeliverAddsOnlyCleanup(tempDir, files, parse.intent, command, messageId, session);
    }
  }

  lemma DeliverAddsOnlyCleanup(tempDir: string, files: set<string>, intent: Intent, command: string, messageId: string, session: Session)
    ensures var o := Deliver(tempDir, files, intent, command, messageId, session);
      var stray := LeftBehind(tempDir, command, Parsed(intent), messageId, session);
      files <= o.files &&
      o.files - files <= (if o.cleanup.Some? then {o.cleanup.value} else {}) + stray &&
      (stray != {} ==> o.cleanup.None? && stray <= o.files)
  {
    var o := Deliver(tempDir, files, intent, command, messageId, session);
    var stray := LeftBehind(tempDir, command, Parsed(intent), messageId, session);
    var name := ScreenshotName(intent, command, messageId);
    if !session.LaunchFailed? && !session.NavigationFailed? && name.Ok? {
      var path := ScreenshotPath(tempDir, name.value);
      assert CapturePath(tempDir, command, Parsed(intent), messageId) == Some(path);
      assert stray == if session.CaptureFailed? && session.written then {path} else {};
      assert o.files == if session.written then files + {path} else files;
      assert o.cleanup == if !session.CaptureFailed? && path in o.files then Some(path) else None;
    } else {
      assert o.files == files && stray == {};
    }
  }

  /**
   * The cleanup the handler schedules is for the image it sent, and removing that one path
   * leaves exactly the files that were there before, less that path. With no cleanup, the files
   * are those before plus the capture left behind by a session that raised after writing it.
   */
  lemma CleanupRestoresFiles(tempDir: string, files: set<string>, message: string, messageId: string, session: Session)
    ensures var r := Respond(tempDir, files, message, messageId, session);
      r.cleanup == (if r.reply.Image? then Some(r.reply.path) else None)
    ensures var r := Respond(tempDir, files, message, messageId, session);
      r.cleanup.Some? ==> r.files - {r.cleanup.value} == files - {r.cleanup.value}
    ensures var r := Respond(tempDir, files, message, messageId, session);
      r.cleanup.None? ==> r.files == files + LeftBehind(tempDir, CommandText(message), ParseCommand(message), messageId, session)
  {
    AnswerCleanupRestores(tempDir, files, CommandText(message), ParseCommand(message), messageId, session);
  }

  lemma AnswerCleanupRestores(tempDir: string, files: set<string>, command: string, parse: Parse, messageId: string, session: Session)
    ensures var r := Answer(tempDir, files, command, parse, messageId, session);
      r.cleanup == (if r.reply.Image? then Some(r.reply.path) else None)
    ensures var r := Answer(tempDir, files, command, parse, messageId, session);
      r.cleanup.Some? ==> r.files - {r.cleanup.value} == files - {r.cleanup.value}
    ensures var r := Answer(tempDir, files, command, parse, messageId, session);
      r.cleanup.None? ==> r.files == files + LeftBehind(tempDir, command, parse, messageId, session)
  {
    var r := Answer(tempDir, files, command, parse, messageId, session);
    var stray := LeftBehind(tempDir, command, parse, messageId, session);
    AnswerAddsOnlyCleanup(tempDir, files, command, parse, messageId, session);
    if r.cleanup.Some? {
      SetsAgreeOutside(r.files, files, r.cleanup.value, stray);
    } else {
      SetsAgreeUpTo(r.files, files, stray);
    }
  }

  lemma SetsAgreeOutside(after: set<string>, before: set<string>, p: string, stray: set<string>)
    requires before <= after && after - before <= {p} + stray && stray == {}
    ensures after - {p} == before - {p}
  {
  }

  lemma SetsAgreeUpTo(after: set<string>, before: set<string>, stray: set<string>)
    requires before <= after && after - before <= stray && stray <= after
    ensures after == before + stray
  {
  }

  /** A capture exception names the missing module exactly when its text mentions `selector` while a
      chart module was being captured; otherwise it reports the exception text after the failure
      prefix. Nothing is scheduled for cleanup, so a PNG written before the exception stays on disk. */
  lemma {:induction false} CaptureFailureClassified(tempDir: string, files: set<string>, message: string, messageId: string, error: string, written: bool)
    requires ParseCommand(message).Parsed?
    requires ScreenshotName(ParseCommand(message).intent, CommandText(message), messageId).Ok?
    ensures var i := ParseCommand(message).intent;
      var path := ScreenshotPath(tempDir, ScreenshotName(i, CommandText(message), messageId).value);
      Respond(tempDir, files, message, messageId, CaptureFailed(error, written)) ==
        Response(Text(FailureMessage(error, ElementId(i))), None, if written then files + {path} else files, Some(TargetUrl(i)))
    ensures var r := Respond(tempDir, files, message, messageId, CaptureFailed(error, written));
      r.reply.Text? &&
      (StartsWith(r.reply.message, ModuleNotFoundPrefix) <==>
        Contains(error, "selector") && ParseCommand(message).intent.ChartModule?)
  {
    AnswerCaptureFailed(tempDir, files, CommandText(message), ParseCommand(message), messageId, error, written);
  }

  lemma {:induction false} AnswerCaptureFailed(tempDir: string, files: set<string>, command: string, parse: Parse, messageId: string, error: string, written: bool)
    requires parse.Parsed?
    requires ScreenshotName(parse.intent, command, messageId).Ok?
    ensures var i := parse.intent;
      var path := ScreenshotPath(tempDir, ScreenshotName(i, command, messageId).value);
      Answer(tempDir, files, command, parse, messageId, CaptureFailed(error, written)) ==
        Response(Text(FailureMessage(error, ElementId(i))), None, if written then files + {path} else files, Some(TargetUrl(i)))
    ensures var r := Answer(tempDir, files, command, parse, messageId, CaptureFailed(error, written));
      r.reply.Text? &&
      (StartsWith(r.reply.message, ModuleNotFoundPrefix) <==> Contains(error, "selector") && parse.intent.ChartModule?)
  {
    var i := parse.intent;
    if i.ChartModule? {
      assert ElementId(i).value != [];
    }
  }

  /** A failure to load the page is classified the same way: it names the missing module only when
      its text mentions `selector` while a chart module was asked for. Nothing is written or scheduled. */
  lemma {:induction false} NavigationFailureClassified(tempDir: string, files: set<string>, message: string, messageId: string, error: string)
    requires ParseCommand(message).Parsed?
    ensures var i := ParseCommand(message).intent;
      Respond(tempDir, files, message, messageId, NavigationFailed(error)) ==
        Response(Text(FailureMessage(error, ElementId(i))), None, files, Some(TargetUrl(i)))
    ensures var r := Respond(tempDir, files, message, messageId, NavigationFailed(error));
      r.reply.Text? &&
      (StartsWith(r.reply.message, ModuleNotFoundPrefix) <==>
        Contains(error, "selector") && ParseCommand(message).intent.ChartModule?)
  {
    var i := ParseCommand(message).intent;
    if i.ChartModule? {
      assert ElementId(i).value != [];
    }
  }

  /** A failure to start the browser is classified the same way; no page is loaded, nothing is
      written or scheduled. */
  lemma {:induction false} LaunchFailureClassified(tempDir: string, files: set<string>, message: string, messageId: string, error: string)
    requires ParseCommand(message).Parsed?
    ensures var i := ParseCommand(message).intent;
      Respond(tempDir, files, message, messageId, LaunchFailed(error)) ==
        Response(Text(FailureMessage(error, ElementId(i))), None, files, None)
    ensures var r := Respond(tempDir, files, message, messageId, LaunchFailed(error));
      r.reply.Text? &&
      (StartsWith(r.reply.message, ModuleNotFoundPrefix) <==>
        Contains(error, "selector") && ParseCommand(message).intent.ChartModule?)
  {
    var i := ParseCommand(message).intent;
    if i.ChartModule? {
      assert ElementId(i).value != [];
    }
  }

  /** A one-word command whose word contains `event` loads the simple page and then fails at naming
      the file: the reply is the generic failure text carrying Python's unbound-variable error. */
  lemma UnboundEventNumberReported(tempDir: string, files: set<string>, message: string, messageId: string, session: Session)
    requires ParseCommand(message) == Parsed(SimplePage)
    requires Contains(CommandText(message), "event")
    requires !session.LaunchFailed? && !session.NavigationFailed?
    ensures Respond(tempDir, files, message, messageId, session) ==
      Response(Text(CaptureFailedPrefix + UnboundEventNumber), None, files, Some(TargetUrl(SimplePage)))
  {
    GenericFailureText(UnboundEventNumber);
  }

  /** Without an element id, every error gets the generic failure text. */
  lemma GenericFailureText(error: string)
    ensures FailureMessage(error, None) == CaptureFailedPrefix + error
  {
  }
}
