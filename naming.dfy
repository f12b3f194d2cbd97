/**
 * Where a capture is written: `sekai_<kind>_<message id>.png` inside the temporary directory.
 */
module Naming {
  import opened Wrappers
  import opened Strings
  import opened Commands

  /** The error Python raises when the event-number variable was never assigned. */
  const UnboundEventNumber := "cannot access local variable 'event_num' where it is not associated with a value"

  /**
   * The file name as the handler chooses it: a chart module is named by its tier; otherwise the
   * presence of `event` anywhere in the command text selects the event name, which needs an event
   * number; otherwise the simple name.
   */
  function ScreenshotName(i: Intent, command: string, messageId: string): (r: Result<string>)
    ensures r.Err? <==> i.SimplePage? && Contains(command, "event")
    ensures r.Err? ==> r.error == UnboundEventNumber
    ensures r.Ok? && (i.EventPage? ==> Contains(command, "event")) ==> r.value == ExpectedName(i, messageId)
    ensures r.Ok? && i.EventPage? && !Contains(command, "event") ==> r.value == ExpectedName(SimplePage, messageId)
  {
    if i.ChartModule? then
      var d := NatToString(i.tier);
      assert "sekai_t" + d + "_" + messageId + ".png" == "sekai_" + ("t" + d + "_" + messageId) + ".png";
      Ok("sekai_t" + d + "_" + messageId + ".png")
    else if Contains(command, "event") then
      if i.EventPage? then
        var n := i.number;
        assert "sekai_event" + n + "_" + messageId + ".png" == "sekai_" + ("event" + n + "_" + messageId) + ".png";
        Ok("sekai_event" + n + "_" + messageId + ".png")
      else Err(UnboundEventNumber)
    else
      assert "sekai_simple_" + messageId + ".png" == "sekai_" + ("simple" + "_" + messageId) + ".png";
      Ok("sekai_simple_" + messageId + ".png")
  }

  /** `str(temp_dir / name)`: pathlib splits `name` at `/` and drops the empty and `.` parts. */
  function ScreenshotPath(tempDir: string, name: string): (r: string)
    ensures StartsWith(r, tempDir + "/")
    ensures '/' !in name && name != "" && name != "." ==> r == tempDir + "/" + name
  {
    var r := tempDir + "/" + JoinPath(PathParts(SplitOn(name, '/')));
    assert r[..|tempDir + "/"|] == tempDir + "/";
    assert '/' !in name && name != "" && name != "." ==> r == tempDir + "/" + name by {
      if '/' !in name && name != "" && name != "." {
        SplitOnPiece(name, [], '/');
      }
    }
    r
  }

  /** The parts pathlib keeps: all but the empty ones and `.`, in their order. */
  function PathParts(parts: seq<string>): (kept: seq<string>)
    ensures forall x :: x in kept <==> x in parts && x != "" && x != "."
    ensures (forall k :: 0 <= k < |parts| ==> parts[k] != "" && parts[k] != ".") ==> kept == parts
  {
    if parts == [] then []
    else if parts[0] == "" || parts[0] == "." then
      var kept := PathParts(parts[1..]);
      assert forall x :: x in parts <==> x == parts[0] || x in parts[1..];
      kept
    else
      var kept := [parts[0]] + PathParts(parts[1..]);
      assert forall x :: x in parts <==> x == parts[0] || x in parts[1..];
      assert (forall k :: 0 <= k < |parts| ==> parts[k] != "" && parts[k] != ".") ==> kept == [parts[0]] + parts[1..];
      kept
  }

  /** Keeping parts commutes with putting part lists one after the other, so the order is kept. */
  lemma {:induction false} PathPartsAppend(a: seq<string>, b: seq<string>)
    ensures PathParts(a + b) == PathParts(a) + PathParts(b)
  {
    if a == [] {
      assert a + b == b;
    } else {
      var ab := a + b;
      assert ab[0] == a[0] && ab[1..] == a[1..] + b;
      PathPartsAppend(a[1..], b);
      var front: seq<string> := if a[0] == "" || a[0] == "." then [] else [a[0]];
      assert PathParts(ab) == front + PathParts(a[1..] + b);
      assert PathParts(a) == front + PathParts(a[1..]);
    }
  }

  /** The parts joined with `/` between neighbours. */
  function JoinPath(parts: seq<string>): string {
    if parts == [] then ""
    else if |parts| == 1 then parts[0]
    else parts[0] + "/" + JoinPath(parts[1..])
  }

  /** The kind part of the name as the intent determines it. */
  function ShotKind(i: Intent): string {
    match i
    case SimplePage => "simple"
    case EventPage(n, _) => "event" + n
    case ChartModule(t) => "t" + NatToString(t)
  }

  /** The part of the name between `sekai_` and `.png`. */
  function NameCore(i: Intent, messageId: string): string {
    ShotKind(i) + "_" + messageId
  }

  /** The name the intent calls for: `sekai_<kind>_<message id>.png`. */
  function ExpectedName(i: Intent, messageId: string): string {
    "sekai_" + NameCore(i, messageId) + ".png"
  }

  // ------------------------------------------------------------------ properties

  /**
   * For a command whose name word does not contain `event` (the word `cnskp`, in particular), the
   * handler's naming never fails and gives the name the intent calls for.
   */
  lemma {:induction false} NameFollowsIntent(message: string, messageId: string)
    requires ParseCommand(message).Parsed?
    requires !Contains(Split(CommandText(message))[0], "event")
    ensures ScreenshotName(ParseCommand(message).intent, CommandText(message), messageId)
      == Ok(ExpectedName(ParseCommand(message).intent, messageId))
  {
    var command := CommandText(message);
    var args := Split(command);
    if |args| == 1 {
      SingleWordIsWholeText(command);
    }
    if |args| >= 2 && Contains(args[1], "event") {
      ContainsThroughWord(command, 1, "event");
    }
    NameFollowsParse(args, command, messageId);
  }

  /** The same, for any words and any text that holds a single word whole and every word's `event`. */
  lemma {:induction false} NameFollowsParse(args: seq<string>, command: string, messageId: string)
    requires ParseArgs(args).Parsed?
    requires |args| == 1 ==> command == args[0]
    requires |args| >= 2 && Contains(args[1], "event") ==> Contains(command, "event")
    requires |args| >= 1 && !Contains(args[0], "event")
    ensures ScreenshotName(ParseArgs(args).intent, command, messageId) == Ok(ExpectedName(ParseArgs(args).intent, messageId))
  {
    var i := ParseArgs(args).intent;
    if i.EventPage? {
      assert StartsWith(args[1], "event");
      assert Contains(args[1], "event");
    }
  }

  lemma {:induction false} DigitsThenUnderscore(d1: string, x1: string, d2: string, x2: string)
    requires AllDigits(d1) && AllDigits(d2)
    requires d1 + "_" + x1 == d2 + "_" + x2
    ensures d1 == d2 && x1 == x2
    decreases |d1|
  {
    var s1, s2 := d1 + "_" + x1, d2 + "_" + x2;
    if d1 == [] || d2 == [] {
      assert s1[0] == s2[0];
      assert d1 == [] && d2 == [];
      assert s1[1..] == x1 && s2[1..] == x2;
    } else {
      assert s1[0] == s2[0];
      assert s1[1..] == d1[1..] + "_" + x1;
      assert s2[1..] == d2[1..] + "_" + x2;
      DigitsThenUnderscore(d1[1..], x1, d2[1..], x2);
      assert d1 == [d1[0]] + d1[1..] && d2 == [d2[0]] + d2[1..];
    }
  }

  lemma CancelFront(a: string, x: string, y: string)
    requires a + x == a + y
    ensures x == y
  {
    assert x == (a + x)[|a|..] && y == (a + y)[|a|..];
  }

  lemma CancelFrame(a: string, x: string, y: string, b: string)
    requires a + x + b == a + y + b
    ensures x == y
  {
    assert |x| == |y|;
    assert x == (a + x + b)[|a|..|a| + |x|] && y == (a + y + b)[|a|..|a| + |y|];
  }

  /** The first letter of the kind tells which kind of capture a name is for. */
  function KindLetter(i: Intent): char {
    match i
    case SimplePage => 's'
    case EventPage(_, _) => 'e'
    case ChartModule(_) => 't'
  }

  lemma NameCoreStart(i: Intent, messageId: string)
    ensures |NameCore(i, messageId)| > 0 && NameCore(i, messageId)[0] == KindLetter(i)
  {
  }

  lemma SimpleCoreInjective(id1: string, id2: string)
    requires NameCore(SimplePage, id1) == NameCore(SimplePage, id2)
    ensures id1 == id2
  {
    assert NameCore(SimplePage, id1) == "simple_" + id1 && NameCore(SimplePage, id2) == "simple_" + id2;
    CancelFront("simple_", id1, id2);
  }

  lemma EventCoreInjective(e1: string, x1: bool, id1: string, e2: string, x2: bool, id2: string)
    requires IsDigits(e1) && IsDigits(e2)
    requires NameCore(EventPage(e1, x1), id1) == NameCore(EventPage(e2, x2), id2)
    ensures id1 == id2 && e1 == e2
  {
    DropKind("event", e1, id1, e2, id2);
    DigitsThenUnderscore(e1, id1, e2, id2);
  }

  lemma ChartCoreInjective(t1: nat, id1: string, t2: nat, id2: string)
    requires NameCore(ChartModule(t1), id1) == NameCore(ChartModule(t2), id2)
    ensures id1 == id2 && t1 == t2
  {
    var d1, d2 := NatToString(t1), NatToString(t2);
    DropKind("t", d1, id1, d2, id2);
    DigitsThenUnderscore(d1, id1, d2, id2);
  }

  lemma DropKind(c: string, d1: string, id1: string, d2: string, id2: string)
    requires c + d1 + "_" + id1 == c + d2 + "_" + id2
    ensures d1 + "_" + id1 == d2 + "_" + id2
  {
    assert (c + d1 + "_" + id1)[|c|..] == d1 + "_" + id1;
    assert (c + d2 + "_" + id2)[|c|..] == d2 + "_" + id2;
  }

  lemma {:induction false} NameCoreInjective(i1: Intent, id1: string, i2: Intent, id2: string)
    requires ValidIntent(i1) && ValidIntent(i2)
    requires NameCore(i1, id1) == NameCore(i2, id2)
    ensures id1 == id2 && ShotKind(i1) == ShotKind(i2)
  {
    NameCoreStart(i1, id1);
    NameCoreStart(i2, id2);
    match i1
    case SimplePage => SimpleCoreInjective(id1, id2);
    case EventPage(e1, x1) => EventCoreInjective(e1, x1, id1, i2.number, i2.index, id2);
    case ChartModule(t1) => ChartCoreInjective(t1, id1, i2.tier, id2);
  }

  /** The name determines the message id and the kind of capture: requests with different message
      ids never share a name, and differing kinds never share one either (`pgai` shares the event name). */
  lemma {:induction false} ExpectedNameInjective(i1: Intent, id1: string, i2: Intent, id2: string)
    requires ValidIntent(i1) && ValidIntent(i2)
    requires ExpectedName(i1, id1) == ExpectedName(i2, id2)
    ensures id1 == id2 && ShotKind(i1) == ShotKind(i2)
  {
    CancelFrame("sekai_", NameCore(i1, id1), NameCore(i2, id2), ".png");
    NameCoreInjective(i1, id1, i2, id2);
  }

  /** Two requests with different message ids, neither containing `/`, never write to the same path. */
  lemma {:induction false} DistinctIdsDistinctPaths(tempDir: string, i1: Intent, id1: string, i2: Intent, id2: string)
    requires ValidIntent(i1) && ValidIntent(i2)
    requires id1 != id2 && '/' !in id1 && '/' !in id2
    ensures ScreenshotPath(tempDir, ExpectedName(i1, id1)) != ScreenshotPath(tempDir, ExpectedName(i2, id2))
  {
    var n1, n2 := ExpectedName(i1, id1), ExpectedName(i2, id2);
    NoSlashInName(i1, id1);
    NoSlashInName(i2, id2);
    var p1, p2 := tempDir + "/" + n1, tempDir + "/" + n2;
    if p1 == p2 {
      var k := |tempDir| + 1;
      assert p1[k..] == n1 && p2[k..] == n2;
      ExpectedNameInjective(i1, id1, i2, id2);
      assert false;
    }
  }

  /** The name of a request whose id has no `/` has none either, and starts with `sekai_`. */
  lemma NoSlashInName(i: Intent, messageId: string)
    requires ValidIntent(i) && '/' !in messageId
    ensures var n := ExpectedName(i, messageId); '/' !in n && n != "" && n != "."
  {
    var kind := ShotKind(i);
    match i {
      case SimplePage =>
      case EventPage(d, _) =>
        DigitsHaveNoSlash(d);
        NoSlashJoin("event", d);
      case ChartModule(t) =>
        DigitsHaveNoSlash(NatToString(t));
        NoSlashJoin("t", NatToString(t));
    }
    NoSlashJoin(kind, "_");
    NoSlashJoin(kind + "_", messageId);
    NoSlashJoin("sekai_", NameCore(i, messageId));
    NoSlashJoin("sekai_" + NameCore(i, messageId), ".png");
    var n := ExpectedName(i, messageId);
    assert n[0] == 's' && |n| > 1;
  }

  lemma NoSlashJoin(a: string, b: string)
    requires '/' !in a && '/' !in b
    ensures '/' !in a + b
  {
  }

  lemma DigitsHaveNoSlash(d: string)
    requires AllDigits(d)
    ensures '/' !in d
  {
  }

  /** pathlib collapses repeated slashes, so the ids `a/b` and `a//b` share one path. */
  lemma SlashIdsCollide(tempDir: string)
    ensures "a/b" != "a//b"
    ensures ScreenshotPath(tempDir, ExpectedName(SimplePage, "a/b")) == ScreenshotPath(tempDir, ExpectedName(SimplePage, "a//b"))
  {
    assert "a/b"[2] != "a//b"[2];
    SlashIdNames();
    DoubledSlashCollapses(tempDir, "sekai_simple_a", "b.png");
  }

  lemma SlashIdNames()
    ensures ExpectedName(SimplePage, "a/b") == "sekai_simple_a" + "/" + "b.png"
    ensures ExpectedName(SimplePage, "a//b") == "sekai_simple_a" + "//" + "b.png"
  {
  }

  /** Between two slash-free parts, a doubled slash gives the same path as a single one. */
  lemma DoubledSlashCollapses(tempDir: string, front: string, back: string)
    requires '/' !in front && front != "" && front != "."
    requires '/' !in back && back != "" && back != "."
    ensures ScreenshotPath(tempDir, front + "/" + back) == ScreenshotPath(tempDir, front + "//" + back)
  {
    assert front + "/" + back == front + ['/'] + back;
    assert front + "//" + back == front + ['/'] + ([] + ['/'] + back);
    SplitOnPiece(front, back, '/');
    SplitOnPiece(front, [] + ['/'] + back, '/');
    SplitOnPiece([], back, '/');
    SplitOnPiece(back, [], '/');
    assert PathParts([front] + [back]) == [front, back] by {
      assert ([front] + [back])[1..] == [back];
      assert PathParts([back]) == [back];
    }
    assert PathParts([front] + ([""] + [back])) == [front, back] by {
      assert ([front] + ([""] + [back]))[1..] == [""] + [back];
      assert ([""] + [back])[1..] == [back];
      assert PathParts([back]) == [back];
    }
  }
}
