/**
 * The `cnskp` command parser: the message text is stripped, lower-cased and split into
 * words, and the words select one dashboard view or one of three error texts.
 */
module Commands {
  import opened Wrappers
  import opened Strings

  const BaseUrl := "https://sekairanking.exmeaning.com"

  /** The chart tiers a `t<T>` command may ask for. */
  const AllowedT: set<nat> := {50, 100, 200, 300, 400, 500, 1000, 2000, 3000, 4000, 5000, 10000}

  /** The allowed tiers in the order the format-error text lists them. */
  const AllowedTListing: seq<nat> := [50, 100, 200, 300, 400, 500, 1000, 2000, 3000, 4000, 5000, 10000]

  const UsageHead := "❌ 指令格式错误"
  const UsageTail := "！支持：\n1. cnskp\n2. cnskp event[数字]\n3. cnskp event[数字] PGAI\n4. cnskp t[数字]"
  const UsageMessage := UsageHead + UsageTail
  const EventFormatHead := "❌ 格式错误：event"
  const EventFormatTail := "后需跟数字（如event150）"
  const EventFormatMessage := EventFormatHead + EventFormatTail
  const TFormatPrefix := "❌ 格式错误：t后仅支持数字"

  function TFormatMessage(): string {
    TFormatPrefix + JoinNats(AllowedTListing, ",")
  }

  /** The three ways a command can be refused. */
  datatype ParseError = UsageError | EventFormatError | TierFormatError

  /** The text shown to the user for each refusal; its opening tells the three refusals apart. */
  function ErrorMessage(e: ParseError): (m: string)
    ensures e == UsageError <==> StartsWith(m, UsageHead)
    ensures e == EventFormatError <==> StartsWith(m, EventFormatHead)
    ensures e == TierFormatError <==> StartsWith(m, TFormatPrefix)
  {
    match e
    case UsageError => UsageOpening(); UsageMessage
    case EventFormatError => EventFormatOpening(); EventFormatMessage
    case TierFormatError => TierFormatOpening(); TFormatMessage()
  }

  lemma UsageOpening()
    ensures StartsWith(UsageMessage, UsageHead)
    ensures !StartsWith(UsageMessage, EventFormatHead) && !StartsWith(UsageMessage, TFormatPrefix)
  {
    OpensWith(UsageHead, UsageTail);
    OpeningsDiffer(UsageMessage, UsageHead, EventFormatHead, 2);
    OpeningsDiffer(UsageMessage, UsageHead, TFormatPrefix, 2);
  }

  lemma EventFormatOpening()
    ensures StartsWith(EventFormatMessage, EventFormatHead)
    ensures !StartsWith(EventFormatMessage, UsageHead) && !StartsWith(EventFormatMessage, TFormatPrefix)
  {
    OpensWith(EventFormatHead, EventFormatTail);
    OpeningsDiffer(EventFormatMessage, EventFormatHead, UsageHead, 2);
    OpeningsDiffer(EventFormatMessage, EventFormatHead, TFormatPrefix, 7);
  }

  lemma TierFormatOpening()
    ensures StartsWith(TFormatMessage(), TFormatPrefix)
    ensures !StartsWith(TFormatMessage(), UsageHead) && !StartsWith(TFormatMessage(), EventFormatHead)
  {
    TierOpeningOf(JoinNats(AllowedTListing, ","));
  }

  /** Whatever follows the tier heading, the text opens with it and with neither other heading. */
  lemma TierOpeningOf(tail: string)
    ensures StartsWith(TFormatPrefix + tail, TFormatPrefix)
    ensures !StartsWith(TFormatPrefix + tail, UsageHead) && !StartsWith(TFormatPrefix + tail, EventFormatHead)
  {
    OpensWith(TFormatPrefix, tail);
    OpeningsDiffer(TFormatPrefix + tail, TFormatPrefix, UsageHead, 2);
    OpeningsDiffer(TFormatPrefix + tail, TFormatPrefix, EventFormatHead, 7);
  }

  lemma OpensWith(a: string, b: string)
    ensures StartsWith(a + b, a)
  {
    assert (a + b)[..|a|] == a;
  }

  /** Two openings that differ at position `k` cannot both open the same text. */
  lemma OpeningsDiffer(m: string, h1: string, h2: string, k: nat)
    requires k < |h1| && k < |h2| && h1[k] != h2[k]
    requires StartsWith(m, h1)
    ensures !StartsWith(m, h2)
  {
    assert m[k] == h1[k];
  }

  /** The view a well-formed command asks for. */
  datatype Intent =
    | SimplePage                              // `cnskp`
    | EventPage(number: string, index: bool)  // `cnskp event<N>` / `cnskp event<N> pgai`
    | ChartModule(tier: nat)                  // `cnskp t<T>`

  /** The outcome of parsing: an intent, a refusal with its text, or an exception that escapes
      the handler (no reply at all). */
  datatype Parse = Parsed(intent: Intent) | Rejected(error: ParseError) | Raised(exception: string)

  /** CPython's default limit on the number of digits `int()` converts from a string. */
  const IntDigitLimit := 4300

  /** The text of the `ValueError` `int()` raises for a digit string over the limit. */
  function IntLimitMessage(digits: nat): string {
    "Exceeds the limit (4300 digits) for integer string conversion: value has " + NatToString(digits)
    + " digits; use sys.set_int_max_str_digits() to increase the limit"
  }

  /** What the parser guarantees of the intents it produces. */
  predicate ValidIntent(i: Intent) {
    match i
    case SimplePage => true
    case EventPage(n, _) => IsDigits(n)
    case ChartModule(t) => t in AllowedT
  }

  /** The page the browser is sent to: a page of the site, the root exactly for a chart module, and
      ending in the event number for an event page. */
  function TargetUrl(i: Intent): (u: string)
    ensures StartsWith(u, BaseUrl)
    ensures u == BaseUrl <==> i.ChartModule?
    ensures i.EventPage? ==> |i.number| <= |u| && u[|u| - |i.number|..] == i.number
  {
    match i
    case SimplePage =>
      var u := BaseUrl + "/simple";
      assert u[..|BaseUrl|] == BaseUrl;
      u
    case EventPage(n, index) =>
      var path := if index then "/index/event/" else "/event/";
      var u := BaseUrl + path + n;
      assert u[..|BaseUrl|] == BaseUrl && u[|u| - |n|..] == n;
      u
    case ChartModule(_) => BaseUrl
  }

  /** The id of the page element to capture, when only one element is captured. */
  function ElementId(i: Intent): (r: Option<string>)
    ensures r.Some? <==> i.ChartModule?
    ensures r.Some? ==> StartsWith(r.value, "chart-") && |r.value| > |"chart-"|
    ensures r.Some? ==> var d := r.value[|"chart-"|..];
      IsDigits(d) && ParseNat(d) == i.tier && (|d| > 1 ==> d[0] != '0')
  {
    match i
    case ChartModule(t) =>
      var v := "chart-" + NatToString(t);
      assert v[|"chart-"|..] == NatToString(t);
      Some(v)
    case _ => None
  }

  /** `message_str.strip().lower()`: no whitespace at either end and no upper-case letter. */
  function CommandText(message: string): (c: string)
    ensures |c| <= |message|
    ensures c == [] || (!IsSpace(c[0]) && !IsSpace(c[|c| - 1]))
    ensures forall k :: 0 <= k < |c| ==> !('A' <= c[k] <= 'Z')
  {
    LowerKeepsEnds(Strip(message));
    Lower(Strip(message))
  }

  /** The dispatch on the words of the command; the first word is the command name itself. */
  function ParseArgs(args: seq<string>): (r: Parse)
    ensures r.Parsed? ==> |args| >= 1 && ValidIntent(r.intent)
  {
    if |args| == 1 then Parsed(SimplePage)
    else if |args| >= 2 && StartsWith(args[1], "event") then
      var number := RemoveAll(args[1], "event");
      if !IsDigits(number) then Rejected(EventFormatError)
      else Parsed(EventPage(number, |args| == 3 && args[2] == "pgai"))
    else if |args| >= 2 && StartsWith(args[1], "t") then
      var digits := RemoveAll(args[1], "t");
      if !IsDigits(digits) then Rejected(TierFormatError)
      else if |digits| > IntDigitLimit then Raised(IntLimitMessage(|digits|))
      else if ParseNat(digits) !in AllowedT then Rejected(TierFormatError)
      else Parsed(ChartModule(ParseNat(digits)))
    else Rejected(UsageError)
  }

  /** The whole parse of a message; an event page is only ever parsed from a text containing `event`. */
  function ParseCommand(message: string): (r: Parse)
    ensures r.Parsed? ==> ValidIntent(r.intent)
    ensures r.Parsed? && r.intent.EventPage? ==> Contains(CommandText(message), "event")
  {
    var command := CommandText(message);
    var args := Split(command);
    EventPageFromEventWord(args);
    if |args| >= 2 && Contains(args[1], "event") then
      ContainsThroughWord(command, 1, "event");
      ParseArgs(args)
    else ParseArgs(args)
  }

  /** An event page is parsed only from a second word that contains `event`. */
  lemma EventPageFromEventWord(args: seq<string>)
    ensures ParseArgs(args).Parsed? && ParseArgs(args).intent.EventPage? ==>
      |args| >= 2 && Contains(args[1], "event")
  {
  }

  // ------------------------------------------------------------------ properties

  /** The bare command asks for the whole simple page. */
  lemma SingleWordIsSimplePage(args: seq<string>)
    requires |args| == 1
    ensures ParseArgs(args).Parsed?
    ensures TargetUrl(ParseArgs(args).intent) == "https://sekairanking.exmeaning.com/simple"
    ensures ElementId(ParseArgs(args).intent) == None
  {
  }

  /** An event page is chosen exactly for a second word `event...` whose remainder is digits;
      the index variant exactly when there are three words and the third is `pgai`. */
  lemma EventPageExactly(args: seq<string>, n: string, index: bool)
    ensures ParseArgs(args) == Parsed(EventPage(n, index)) <==>
      |args| >= 2 && StartsWith(args[1], "event") && n == RemoveAll(args[1], "event") && IsDigits(n)
      && index == (|args| == 3 && args[2] == "pgai")
  {
  }

  /** A second word `event...` whose remainder is not a digit string reports the event format error. */
  lemma EventFormatErrorExactly(args: seq<string>)
    ensures ParseArgs(args) == Rejected(EventFormatError) <==>
      |args| >= 2 && StartsWith(args[1], "event") && !IsDigits(RemoveAll(args[1], "event"))
  {
  }

  /** `event<N>` keeps N verbatim (leading zeros too) in the URL; `pgai` as the third and last word
      selects the index page, any other tail the plain event page. */
  lemma {:induction false} EventNumberVerbatim(name: string, n: string, rest: seq<string>)
    requires IsDigits(n)
    ensures ParseArgs([name, "event" + n] + rest) == Parsed(EventPage(n, rest == ["pgai"]))
    ensures TargetUrl(ParseArgs([name, "event" + n] + rest).intent) ==
      if rest == ["pgai"] then "https://sekairanking.exmeaning.com/index/event/" + n
      else "https://sekairanking.exmeaning.com/event/" + n
  {
    EventWord(n);
    var args := [name, "event" + n] + rest;
    assert args[1] == "event" + n;
    assert (|args| == 3 && args[2] == "pgai") == (rest == ["pgai"]) by {
      assert |args| == 3 ==> args[2] == rest[0];
    }
    EventUrl(n, rest == ["pgai"]);
  }

  lemma EventUrl(n: string, index: bool)
    ensures TargetUrl(EventPage(n, index)) ==
      if index then "https://sekairanking.exmeaning.com/index/event/" + n
      else "https://sekairanking.exmeaning.com/event/" + n
  {
  }

  /** The word `event<N>` starts with `event` and leaves N once `event` is removed. */
  lemma {:induction false} EventWord(n: string)
    requires IsDigits(n)
    ensures StartsWith("event" + n, "event") && RemoveAll("event" + n, "event") == n
  {
    assert ("event" + n)[..5] == "event";
    RemoveAllDropsFront("event", n);
    RemoveAllKeepsFront(n, [], "event");
    assert n + [] == n;
  }

  /** Every occurrence of `event` is removed from the second word, not only the leading one. */
  lemma {:induction false} EveryEventOccurrenceRemoved(name: string, a: string, b: string)
    requires AllDigits(a) && IsDigits(b)
    ensures ParseArgs([name, "event" + a + "event" + b]) == Parsed(EventPage(a + b, false))
  {
    var w := "event" + a + "event" + b;
    assert w == "event" + (a + ("event" + b));
    assert StartsWith(w, "event");
    RemoveAllDropsFront("event", a + ("event" + b));
    RemoveAllKeepsFront(a, "event" + b, "event");
    RemoveAllDropsFront("event", b);
    RemoveAllKeepsFront(b, [], "event");
    assert b + [] == b;
    assert IsDigits(a + b) by {
      assert forall i :: |a| <= i < |a + b| ==> (a + b)[i] == b[i - |a|];
    }
  }

  /** A chart module is chosen exactly for a second word `t...` (not `event...`) whose remainder is
      digits, within `int()`'s digit limit, naming an allowed tier. */
  lemma ChartModuleExactly(args: seq<string>, t: nat)
    ensures ParseArgs(args) == Parsed(ChartModule(t)) <==>
      |args| >= 2 && !StartsWith(args[1], "event") && StartsWith(args[1], "t")
      && IsDigits(RemoveAll(args[1], "t")) && |RemoveAll(args[1], "t")| <= IntDigitLimit
      && ParseNat(RemoveAll(args[1], "t")) == t && t in AllowedT
  {
  }

  /** The handler raises exactly for a second word `t...` whose remainder is digits over `int()`'s
      limit; the exception carries that number of digits. */
  lemma IntLimitRaisedExactly(args: seq<string>)
    ensures ParseArgs(args).Raised? <==>
      |args| >= 2 && !StartsWith(args[1], "event") && StartsWith(args[1], "t")
      && IsDigits(RemoveAll(args[1], "t")) && |RemoveAll(args[1], "t")| > IntDigitLimit
    ensures ParseArgs(args).Raised? ==> ParseArgs(args).exception == IntLimitMessage(|RemoveAll(args[1], "t")|)
  {
  }

  /** `t<T>` with T digits: over `int()`'s digit limit the handler raises; otherwise T is
      accepted iff int(T) is an allowed tier, and then the whole dashboard is loaded and the
      element `chart-<int(T)>` is captured; otherwise the format error. */
  lemma {:induction false} TierFromDigits(name: string, d: string, rest: seq<string>)
    requires IsDigits(d)
    ensures |d| > IntDigitLimit ==> ParseArgs([name, "t" + d] + rest) == Raised(IntLimitMessage(|d|))
    ensures |d| <= IntDigitLimit && ParseNat(d) in AllowedT ==>
      ParseArgs([name, "t" + d] + rest) == Parsed(ChartModule(ParseNat(d)))
    ensures |d| <= IntDigitLimit && ParseNat(d) !in AllowedT ==>
      ParseArgs([name, "t" + d] + rest) == Rejected(TierFormatError)
    ensures |d| <= IntDigitLimit && ParseNat(d) in AllowedT ==>
      TargetUrl(ParseArgs([name, "t" + d] + rest).intent) == "https://sekairanking.exmeaning.com" &&
      ElementId(ParseArgs([name, "t" + d] + rest).intent) == Some("chart-" + NatToString(ParseNat(d)))
  {
    TierWord(d);
    var args := [name, "t" + d] + rest;
    assert args[1] == "t" + d;
  }

  /** The word `t<T>` starts with `t`, not with `event`, and leaves T once `t` is removed. */
  lemma {:induction false} TierWord(d: string)
    requires IsDigits(d)
    ensures StartsWith("t" + d, "t") && !StartsWith("t" + d, "event") && RemoveAll("t" + d, "t") == d
  {
    var w := "t" + d;
    assert w[..1] == "t";
    assert !StartsWith(w, "event") by {
      assert w[0] == 't';
    }
    RemoveAllDropsFront("t", d);
    RemoveAllKeepsFront(d, [], "t");
    assert d + [] == d;
  }

  /** Leading zeros of T are dropped in the element id: `t0100` captures `chart-100`. They still
      count towards `int()`'s digit limit: one zero too many and the handler raises instead. */
  lemma {:induction false} TierLeadingZeroNormalised(name: string, d: string)
    requires IsDigits(d)
    ensures |d| < IntDigitLimit ==> ParseArgs([name, "t0" + d]) == ParseArgs([name, "t" + d])
    ensures |d| >= IntDigitLimit ==> ParseArgs([name, "t0" + d]) == Raised(IntLimitMessage(|d| + 1))
  {
    var z := "0" + d;
    ParseNatLeadingZero(d);
    assert IsDigits(z) && ParseNat(z) == ParseNat(d) && |z| == |d| + 1;
    assert "t0" + d == "t" + z;
    assert [name, "t0" + d] == [name, "t" + z] + [];
    TierFromDigits(name, z, []);
    if |d| < IntDigitLimit {
      TierFromDigits(name, d, []);
      assert [name, "t" + d] + [] == [name, "t" + d];
    }
  }

  /** Without leading zeros, T appears verbatim in the element id. */
  lemma {:induction false} TierVerbatimWhenCanonical(name: string, d: string)
    requires IsDigits(d) && (|d| > 1 ==> d[0] != '0') && ParseNat(d) in AllowedT
    ensures ParseArgs([name, "t" + d]).Parsed?
    ensures ElementId(ParseArgs([name, "t" + d]).intent) == Some("chart-" + d)
  {
    NatToStringOfCanonical(d);
    NatToStringLength(ParseNat(d), 5);
    TierFromDigits(name, d, []);
    assert [name, "t" + d] + [] == [name, "t" + d];
  }

  /** The tier format error is given exactly for a second word `t...` whose remainder is not
      digits, or is digits within `int()`'s limit but not an allowed tier. What its text lists
      is stated by `TierListingIsAllowedSet` and `TierMessageListsTiers`. */
  lemma TierFormatErrorExactly(args: seq<string>)
    ensures ParseArgs(args) == Rejected(TierFormatError) <==>
      |args| >= 2 && !StartsWith(args[1], "event") && StartsWith(args[1], "t")
      && (!IsDigits(RemoveAll(args[1], "t")) ||
          (|RemoveAll(args[1], "t")| <= IntDigitLimit && ParseNat(RemoveAll(args[1], "t")) !in AllowedT))
  {
  }

  /** The usage text answers no words at all, and a second word starting neither with `event`
      nor with `t`. */
  lemma UsageErrorExactly(args: seq<string>)
    ensures ParseArgs(args) == Rejected(UsageError) <==>
      |args| == 0 || (|args| >= 2 && !StartsWith(args[1], "event") && !StartsWith(args[1], "t"))
  {
  }

  /** The allowed tiers are listed once each, in increasing order, and nothing else is listed. */
  lemma TierListingIsAllowedSet()
    ensures forall k :: 0 <= k < |AllowedTListing| ==> AllowedTListing[k] in AllowedT
    ensures forall t :: t in AllowedT ==> t in AllowedTListing
    ensures forall j, k :: 0 <= j < k < |AllowedTListing| ==> AllowedTListing[j] < AllowedTListing[k]
  {
    ListedTiersAllowed();
    AllowedTiersListed();
    ListingIncreasing();
  }

  lemma ListedTiersAllowed()
    ensures forall k :: 0 <= k < |AllowedTListing| ==> AllowedTListing[k] in AllowedT
  {
  }

  lemma AllowedTiersListed()
    ensures forall t :: t in AllowedT ==> t in AllowedTListing
  {
  }

  lemma ListingIncreasing()
    ensures forall j, k :: 0 <= j < k < |AllowedTListing| ==> AllowedTListing[j] < AllowedTListing[k]
  {
    forall j, k | 0 <= j < k < |AllowedTListing|
      ensures AllowedTListing[j] < AllowedTListing[k]
    {
      assert forall i :: 0 <= i < |AllowedTListing| - 1 ==> AllowedTListing[i] < AllowedTListing[i + 1];
      if j + 1 < k {
        assert AllowedTListing[j] < AllowedTListing[k - 1];
      }
    }
  }

  /** Read back at the commas, the text after the prefix of the tier format error gives the listed
      tiers, each written with `str()`. */
  lemma {:induction false} TierMessageListsTiers()
    ensures StartsWith(TFormatMessage(), TFormatPrefix)
    ensures var fields := SplitOn(TFormatMessage()[|TFormatPrefix|..], ',');
      |fields| == |AllowedTListing| &&
      (forall k :: 0 <= k < |fields| ==> IsDigits(fields[k]) && ParseNat(fields[k]) == AllowedTListing[k])
  {
    var listing := AllowedTListing;
    var j := JoinNats(listing, [',']);
    assert TFormatMessage() == TFormatPrefix + j;
    assert (TFormatPrefix + j)[..|TFormatPrefix|] == TFormatPrefix;
    assert (TFormatPrefix + j)[|TFormatPrefix|..] == j;
    SplitJoinNats(listing, ',');
  }
}
