/** Whole commands, as a user types them, and what the handler makes of them. */
module Scenarios {
  import opened Wrappers
  import opened Strings
  import opened Commands
  import opened Naming
  import opened Reporting

  /** A message of lower-case words separated by single blanks splits back into those words. */
  lemma {:induction false} WordsOfPlainMessage(ws: seq<string>)
    requires |ws| > 0
    requires forall k :: 0 <= k < |ws| ==> ws[k] != [] && NoSpace(ws[k])
    requires forall k, i :: 0 <= k < |ws| && 0 <= i < |ws[k]| ==> !('A' <= ws[k][i] <= 'Z')
    ensures Split(CommandText(JoinWords(ws))) == ws
  {
    var m := JoinWords(ws);
    PlainJoin(ws);
    LowerKeepsLowerCase(m);
    SplitJoinWords(ws);
  }

  lemma {:induction false} PlainJoin(ws: seq<string>)
    requires |ws| > 0
    requires forall k :: 0 <= k < |ws| ==> ws[k] != [] && NoSpace(ws[k])
    requires forall k, i :: 0 <= k < |ws| && 0 <= i < |ws[k]| ==> !('A' <= ws[k][i] <= 'Z')
    ensures var m := JoinWords(ws); |m| > 0 && !IsSpace(m[0]) && !IsSpace(m[|m| - 1])
    ensures forall i :: 0 <= i < |JoinWords(ws)| ==> !('A' <= JoinWords(ws)[i] <= 'Z')
  {
    if |ws| > 1 {
      PlainJoin(ws[1..]);
      var rest := JoinWords(ws[1..]);
      var m := ws[0] + " " + rest;
      assert m[0] == ws[0][0];
      assert m[|m| - 1] == rest[|rest| - 1];
      assert forall i :: 0 <= i < |m| ==> m[i] == ' ' || m[i] in ws[0] || m[i] in rest;
    }
  }

  /** The text `cnskp` itself is one word. */
  lemma BareText()
    ensures Split(CommandText("cnskp")) == ["cnskp"]
  {
    WordsOfPlainMessage(["cnskp"]);
    assert JoinWords(["cnskp"]) == "cnskp";
  }

  /** The command word does not contain `event`, so the naming of the file follows the intent. */
  lemma CommandWordLacksEvent()
    ensures !Contains("cnskp", "event")
  {
    assert !StartsWith("cnskp", "event") by {
      assert "cnskp"[0] != "event"[0];
    }
    assert |"cnskp"[1..]| < |"event"|;
  }

  /** `cnskp`: the simple page, captured whole, named `sekai_simple_<id>.png`. */
  lemma BareCommand(message: string, messageId: string)
    requires Split(CommandText(message)) == ["cnskp"]
    ensures ParseCommand(message) == Parsed(SimplePage)
    ensures ScreenshotName(SimplePage, CommandText(message), messageId) == Ok("sekai_simple_" + messageId + ".png")
  {
    CommandWordLacksEvent();
    NameFollowsIntent(message, messageId);
    SimpleName(messageId);
  }

  lemma SimpleName(messageId: string)
    ensures ExpectedName(SimplePage, messageId) == "sekai_simple_" + messageId + ".png"
  {
    assert "sekai_" + ("simple" + "_" + messageId) + ".png" == "sekai_simple_" + messageId + ".png";
  }

  lemma ArgsEvent150(rest: seq<string>)
    requires rest == [] || rest == ["pgai"]
    ensures ParseArgs(["cnskp", "event150"] + rest) == Parsed(EventPage("150", rest == ["pgai"]))
  {
    EventNumberVerbatim("cnskp", "150", rest);
    assert "event" + "150" == "event150";
  }

  /** `cnskp event150` (in any case, with any spacing): the event page 150, named `sekai_event150_<id>.png`. */
  lemma EventCommand(message: string, messageId: string)
    requires Split(CommandText(message)) == ["cnskp", "event150"]
    ensures ParseCommand(message) == Parsed(EventPage("150", false))
    ensures ScreenshotName(EventPage("150", false), CommandText(message), messageId)
      == Ok("sekai_event150_" + messageId + ".png")
  {
    ArgsEvent150([]);
    assert ["cnskp", "event150"] + [] == ["cnskp", "event150"];
    CommandWordLacksEvent();
    NameFollowsIntent(message, messageId);
    EventName150(messageId);
  }

  lemma EventName150(messageId: string)
    ensures ExpectedName(EventPage("150", false), messageId) == "sekai_event150_" + messageId + ".png"
  {
    assert "sekai_" + ("event" + "150" + "_" + messageId) + ".png" == "sekai_event150_" + messageId + ".png";
  }

  /** `cnskp event150 pgai`: the index variant of event page 150. */
  lemma IndexEventCommand(message: string)
    requires Split(CommandText(message)) == ["cnskp", "event150", "pgai"]
    ensures ParseCommand(message) == Parsed(EventPage("150", true))
  {
    ArgsEvent150(["pgai"]);
    assert ["cnskp", "event150"] + ["pgai"] == ["cnskp", "event150", "pgai"];
  }

  lemma Url150()
    ensures "https://sekairanking.exmeaning.com/event/" + "150" == "https://sekairanking.exmeaning.com/event/150"
    ensures "https://sekairanking.exmeaning.com/index/event/" + "150" == "https://sekairanking.exmeaning.com/index/event/150"
  {
  }

  /** Once the browser is started, it is sent to `/event/150` for `cnskp event150`. */
  lemma EventPageLoaded(tempDir: string, files: set<string>, message: string, messageId: string, session: Session)
    requires Split(CommandText(message)) == ["cnskp", "event150"]
    ensures Respond(tempDir, files, message, messageId, session).page
      == if session.LaunchFailed? then None else Some("https://sekairanking.exmeaning.com/event/150")
  {
    EventCommand(message, messageId);
    var parse := ParseCommand(message);
    assert parse == Parsed(EventPage("150", false));
    AnswerPage(tempDir, files, CommandText(message), parse, messageId, session);
    EventUrl("150", false);
    Url150();
  }

  /** Once the browser is started, it is sent to `/index/event/150` for `cnskp event150 pgai`. */
  lemma IndexEventPageLoaded(tempDir: string, files: set<string>, message: string, messageId: string, session: Session)
    requires Split(CommandText(message)) == ["cnskp", "event150", "pgai"]
    ensures Respond(tempDir, files, message, messageId, session).page
      == if session.LaunchFailed? then None else Some("https://sekairanking.exmeaning.com/index/event/150")
  {
    IndexEventCommand(message);
    var parse := ParseCommand(message);
    assert parse == Parsed(EventPage("150", true));
    AnswerPage(tempDir, files, CommandText(message), parse, messageId, session);
    EventUrl("150", true);
    Url150();
  }

  lemma TierNotAllowed999()
    ensures IsDigits("999") && ParseNat("999") !in AllowedT
  {
    assert "999"[..2] == "99" && "99"[..1] == "9" && "9"[..0] == "";
    assert ParseNat("999") == 999;
  }

  /** `cnskp t999`: 999 is not an allowed tier, so the tier format error. */
  lemma UnknownTierCommand(message: string)
    requires Split(CommandText(message)) == ["cnskp", "t999"]
    ensures ParseCommand(message) == Rejected(TierFormatError)
  {
    ArgsTier999();
  }

  lemma ArgsTier999()
    ensures ParseArgs(["cnskp", "t999"]) == Rejected(TierFormatError)
  {
    TierNotAllowed999();
    TierFromDigits("cnskp", "999", []);
    assert "t" + "999" == "t999";
    assert ["cnskp", "t" + "999"] + [] == ["cnskp", "t999"];
  }

  lemma ArgsTier100()
    ensures ParseArgs(["cnskp", "t100"]) == Parsed(ChartModule(100))
    ensures NatToString(100) == "100"
  {
    assert "100"[..2] == "10" && "10"[..1] == "1" && "1"[..0] == "";
    assert ParseNat("100") == 100;
    NatToStringOfCanonical("100");
    TierFromDigits("cnskp", "100", []);
    assert "t" + "100" == "t100";
    assert ["cnskp", "t" + "100"] + [] == ["cnskp", "t100"];
  }

  /** `cnskp t100`: the dashboard root with element `chart-100`, named `sekai_t100_<id>.png`. */
  lemma TierCommand(message: string, messageId: string)
    requires Split(CommandText(message)) == ["cnskp", "t100"]
    ensures ParseCommand(message) == Parsed(ChartModule(100))
    ensures ElementId(ChartModule(100)) == Some("chart-100")
    ensures ScreenshotName(ChartModule(100), CommandText(message), messageId)
      == Ok("sekai_t100_" + messageId + ".png")
  {
    Chart100Element();
    TierName100(CommandText(message), messageId);
    ArgsTier100();
  }

  lemma Chart100Element()
    ensures ElementId(ChartModule(100)) == Some("chart-100")
  {
    ArgsTier100();
    assert "chart-" + "100" == "chart-100";
  }

  /** A chart module is named by its tier, whatever the command text holds. */
  lemma TierName100(command: string, messageId: string)
    ensures ScreenshotName(ChartModule(100), command, messageId) == Ok("sekai_t100_" + messageId + ".png")
  {
    ArgsTier100();
    assert "sekai_t" + "100" + "_" + messageId + ".png" == "sekai_t100_" + messageId + ".png";
  }

  /** The text naming `chart-100` as missing. */
  lemma MissingChart100Text(error: string)
    requires Contains(error, "selector")
    ensures FailureMessage(error, Some("chart-100")) == "❌ 未找到模块chart-100，请确认页面是否存在该内容"
  {
    Chart100MissingText();
  }

  lemma Chart100MissingText()
    ensures ModuleNotFoundPrefix + "chart-100" + ModuleNotFoundSuffix == "❌ 未找到模块chart-100，请确认页面是否存在该内容"
  {
  }

  /** `cnskp t100` whose wait for the element fails with an error mentioning `selector`: the reply
      names `chart-100` as missing. */
  lemma MissingModuleCommand(message: string, tempDir: string, files: set<string>, messageId: string, before: string, after: string)
    requires Split(CommandText(message)) == ["cnskp", "t100"]
    ensures Respond(tempDir, files, message, messageId, CaptureFailed(before + "selector" + after, false)).reply
      == Text("❌ 未找到模块chart-100，请确认页面是否存在该内容")
  {
    TierCommand(message, messageId);
    var error := before + "selector" + after;
    ContainsInMiddle(before, "selector", after);
    CaptureFailureClassified(tempDir, files, message, messageId, error, false);
    MissingChart100Text(error);
  }

  /** `cnskp` whose browser fails to close after the page was captured: the reply is the generic
      failure text, and `sekai_simple_<id>.png` stays on disk with no cleanup scheduled. */
  lemma CaptureLeftOnDisk(message: string, tempDir: string, files: set<string>, messageId: string, error: string)
    requires Split(CommandText(message)) == ["cnskp"]
    ensures var r := Respond(tempDir, files, message, messageId, CaptureFailed(error, true));
      r.reply == Text(CaptureFailedPrefix + error) && r.cleanup == None &&
      r.files == files + {ScreenshotPath(tempDir, "sekai_simple_" + messageId + ".png")}
  {
    BareCommand(message, messageId);
    CaptureFailureClassified(tempDir, files, message, messageId, error, true);
    GenericFailureText(error);
  }
}
