/**
 * The plugin object: its temporary directory and the files on disk, the command handler that
 * may write a capture there, and the deferred cleanup that deletes it.
 */
module Plugin {
  import opened Wrappers
  import opened Strings
  import opened Commands
  import opened Naming
  import opened Reporting

  class ScreenshotPlugin {
    /** The directory captures are written to (assumed to exist). */
    const tempDir: string
    /** The paths that currently exist on disk. */
    var files: set<string>

    constructor (tempDir: string, files: set<string>)
      ensures this.tempDir == tempDir && this.files == files
    {
      this.tempDir := tempDir;
      this.files := files;
    }

    /**
     * Answers one `cnskp` command: `Answer` written as the handler's statements, updating the
     * files on disk in place. The reply, the path scheduled for deferred cleanup (if any), the page
     * the browser was sent to and the files afterwards are those `Respond` gives.
     */
    method Handle(message: string, messageId: string, session: Session) returns (reply: Reply, cleanup: Option<string>, page: Option<string>)
      modifies this
      ensures Response(reply, cleanup, files, page) == Respond(tempDir, old(files), message, messageId, session)
    {
      cleanup, page := None, None;
      var command := CommandText(message);
      var parse := ParseArgs(Split(command));
      if parse.Raised? {
        reply := Unhandled(parse.exception);
        return;
      }
      if parse.Rejected? {
        reply := Text(ErrorMessage(parse.error));
        return;
      }
      var intent := parse.intent;
      var elementId := ElementId(intent);
      if session.LaunchFailed? {
        reply := Text(FailureMessage(session.error, elementId));
        return;
      }
      page := Some(TargetUrl(intent));
      if session.NavigationFailed? {
        reply := Text(FailureMessage(session.error, elementId));
        return;
      }
      var name := ScreenshotName(intent, command, messageId);
      if name.Err? {
        reply := Text(FailureMessage(name.error, elementId));
        return;
      }
      var path := ScreenshotPath(tempDir, name.value);
      if session.written {
        files := files + {path};
      }
      if session.CaptureFailed? {
        reply := Text(FailureMessage(session.error, elementId));
        return;
      }
      if path in files {
        reply := Image(path);
        cleanup := Some(path);
      } else {
        reply := Text(MissingFileMessage);
      }
    }

    /** The deferred cleanup: deletes `path` if it still exists; nothing else changes. */
    method CleanTempFile(path: string)
      modifies this
      ensures files == old(files) - {path}
    {
      if path in files {
        files := files - {path};
      }
    }

    /**
     * One command followed, later, by the cleanup it scheduled: afterwards the directory holds what
     * it held before, less the file that was sent, plus a capture written before the session raised.
     */
    method HandleThenCleanUp(message: string, messageId: string, session: Session) returns (reply: Reply)
      modifies this
      ensures reply == Respond(tempDir, old(files), message, messageId, session).reply
      ensures files == old(files) - (if reply.Image? then {reply.path} else {})
        + LeftBehind(tempDir, CommandText(message), ParseCommand(message), messageId, session)
    {
      ghost var r := Respond(tempDir, files, message, messageId, session);
      CleanupRestoresFiles(tempDir, files, message, messageId, session);
      var cleanup, page;
      reply, cleanup, page := Handle(message, messageId, session);
      assert reply == r.reply && cleanup == r.cleanup && files == r.files;
      if cleanup.Some? {
        CleanTempFile(cleanup.value);
      }
    }
  }
}
