# SekaiRanking screenshot plugin — Dafny model

The plugin answers the chat command `cnskp`. It takes a screenshot of a view of the
`https://sekairanking.exmeaning.com` dashboard and sends the image back. Thirty seconds later it
deletes the temporary file. This project models the parts of the handler that follow fixed rules:

- **Command parser** (`commands.dfy`, module `Commands`). The message is `strip()`ped,
  `lower()`ed and `split()`. The words then select one of three views, or one of three refusals:
  - `cnskp` gives the simple page.
  - `cnskp event<N>` gives the event page N; with `pgai` as the third and last word it gives the
    index event page N.
  - `cnskp t<T>` gives the element `chart-<int(T)>` of the dashboard root, for T in the allowed set.
  - Otherwise the result is the event format error, the tier format error or the usage text.
  - A tier remainder of more than 4300 digits makes `int()` raise, and the exception escapes the
    handler (`Raised`).

  The Python string operations it uses (`strip`, `lower`, `split`, `startswith`, `in`,
  `replace(p, "")`, `isdigit`, `int`, `str`, `",".join`) are written out in `strings.dfy`
  (module `Strings`), with the lemmas the parser's properties rest on.
- **File naming** (`naming.dfy`, module `Naming`). `ScreenshotName` is the rule as the handler
  writes it. `ExpectedName`, `sekai_<kind>_<message id>.png`, is the name the request calls for.
  `ScreenshotPath` joins the directory and the name as pathlib does, dropping empty and `.` parts.
  Lemmas connect the two names and prove that different message ids without `/` never share a path.
- **Reporting** (`reporting.dfy`, module `Reporting`). `FailureMessage` classifies capture
  exceptions. `Respond` is the whole handler as a function of the files on disk and of an abstract
  browser session (`Session`). The session either fails while starting the browser, or fails
  while loading the page, or fails later (having written the PNG or not), or completes (having
  written the PNG or not). The response holds the reply, the scheduled cleanup, the files
  afterwards and the page the browser was sent to (none when the browser never got that far). A
  reply is a text, an image, or an exception escaping the handler (`Unhandled`).
- **Plugin object** (`plugin.dfy`, module `Plugin`). Class `ScreenshotPlugin` keeps the temporary
  directory and the set of paths that exist on disk. `Handle` runs the handler imperatively and is
  proved equal to `Respond`. `CleanTempFile` is the deferred cleanup. `HandleThenCleanUp` runs a
  command, then its scheduled cleanup.
- **Scenarios** (`scenarios.dfy`, module `Scenarios`). Whole commands, with the lemma that a
  plain message splits into its words.

The model follows the code as written:
- A third word `pgai` selects the index page only when there are exactly three words.
- Extra words after `event<N>` or `t<T>` are accepted and ignored; they do not cause the usage error.
- The event and tier remainders are the word with *every* occurrence of `event` (or `t`) removed,
  not just the prefix. So `event1event2` is event 12 and `t1t00` is tier 100.
- The event number is kept as text, leading zeros included, and may be `0`.
- The file-name kind is chosen by whether `event` occurs anywhere in the command text, not by the
  parsed mode. A one-word command containing `event` therefore reaches an unassigned variable, once
  the browser has started and the page has loaded (a failure there is reported first). The
  resulting exception is reported as a capture failure (`UnboundEventNumberReported`). For the
  command word `cnskp` this cannot happen (`NameFollowsIntent`).
- A failure while starting the browser, or while loading the page, is classified like any capture
  failure. If its text mentions
  `selector` while a chart was requested, it is reported as a missing module.
- The `pgai` index page shares the `sekai_event<N>_<id>.png` name with the plain event page.
- `int(t_num)` runs outside the `try`. A tier remainder of more than 4300 digits makes it raise
  `ValueError`, and the handler ends without a reply. Leading zeros count towards the limit.
- Closing the browser, and leaving the Playwright context, happen inside the `try` after the PNG
  is written. If either raises, the reply is a failure text, no cleanup is scheduled and the PNG
  stays on disk (`CaptureLeftOnDisk`).
- A message id containing `/` becomes part of a nested path, and pathlib collapses `//`. The ids
  `a/b` and `a//b` therefore share a path (`Naming.SlashIdsCollide`).

## Model

| member | source | states |
|---|---|---|
| `Strings.Lower` | main.py:37 | `lower()` keeps the length, leaves no upper-case ASCII letter, moves each one down by 32 and keeps every other character |
| `Strings.Strip` | main.py:37 | the result is the slice of the text between a whitespace-only front and a whitespace-only back, starts and ends with non-whitespace, and equals the text when the text has no whitespace at either end |
| `Strings.Split` | main.py:39 | `split()` gives non-empty words without whitespace, and no word at all exactly when the text is all whitespace |
| `Strings.SplitSkipsSpace` | main.py:39 | `split()` skips any run of whitespace in front of the text, whatever its length and characters (blanks, tabs, line breaks) |
| `Strings.SplitTakesWord` | main.py:39 | a non-empty run of non-whitespace ended by whitespace or by the end of the text is the first word, and splitting goes on after it; with the skip law and `split("") == []` this fixes `split()` on every text |
| `Strings.SplitJoinWords` | main.py:39 | `split()` of non-empty blank-free words joined by single blanks gives back exactly those words |
| `Strings.SingleWordIsWholeText` | main.py:37-39 | a stripped text that splits into one word is that word |
| `Strings.ContainsThroughWord` | main.py:39 | a substring of any word of the split text is a substring of the text |
| `Strings.Contains` | main.py:83 | `p in s` needs `s` to be at least as long as `p` |
| `Strings.ContainsIsOccurrence` | main.py:83 | `p in s` holds exactly when `p` occurs at some position of `s` |
| `Strings.RemoveAll` | main.py:50-58 | `replace(p, "")` never lengthens the text, leaves it unchanged exactly when `p` does not occur, and otherwise removes at least one whole `p` |
| `Strings.RemoveAllKeepsFront` | main.py:50 | `replace(p, "")` leaves characters that cannot start `p` in place and removes occurrences after them |
| `Strings.RemoveAllSkip` | main.py:50-58 | a first character that starts no occurrence of the pattern (even one equal to its first character) is kept, and removal goes on after it |
| `Strings.RemoveAllDropsFront` | main.py:50-58 | an occurrence of the pattern at the front is dropped; with the skip law and the identity on texts without the pattern this fixes `replace(p, "")` on every text |
| `Strings.ParseNat` | main.py:59 | `int()` of a digit string is a natural number below 10 to the number of digits |
| `Strings.NatToString` | main.py:62-64 | `str(n)` is a non-empty digit string without leading zero that `int()` reads back as `n` |
| `Strings.NatToStringLength` | main.py:59 | `str(n)` has at most k digits when n is below 10^k |
| `Strings.ParseNatLeadingZero` | main.py:59 | a leading zero does not change the value `int()` reads |
| `Strings.NatToStringOfCanonical` | main.py:62-64 | a digit string without leading zero survives `str(int(s))` unchanged |
| `Strings.SplitJoinNats` | main.py:60 | splitting the comma-joined numbers at the commas gives each number's `str()` in order |
| `Commands.ErrorMessage` | main.py:52-66 | each refusal's text opens with its own heading (usage, event format, tier format), so the text tells which refusal it is |
| `Commands.TargetUrl` | main.py:40-64 | every target is a page of the site, the bare site root exactly for a chart module, and an event page's URL ends in the event number |
| `Commands.CommandText` | main.py:37 | the command text is no longer than the message, has no whitespace at either end and no upper-case letter |
| `Commands.ParseCommand` | main.py:37-67 | a parsed intent is valid, and an event page is only parsed from a text that contains `event` |
| `Commands.EventPageFromEventWord` | main.py:48-55 | an event page is parsed only when a second word containing `event` is present |
| `Commands.ElementId` | main.py:62-64 | an element id is present exactly for chart modules; it is `chart-` followed by a digit string without leading zero that `int()` reads as the tier |
| `Commands.ParseArgs` | main.py:44-67 | every accepted command has at least one word and a digit event number or an allowed tier |
| `Commands.SingleWordIsSimplePage` | main.py:45-47 | exactly one word gives `{base}/simple` with no element id |
| `Commands.EventPageExactly` | main.py:48-55 | an event page results iff the second word starts with `event` and its remainder is digits; the index variant iff there are exactly three words and the third is `pgai` |
| `Commands.EventFormatErrorExactly` | main.py:48-53 | the event format error results iff the second word starts with `event` and its remainder is not a digit string |
| `Commands.EventWord` | main.py:48-50 | a word `event<N>` starts with `event`, and removing `event` from it leaves N |
| `Commands.EventNumberVerbatim` | main.py:48-55 | `event<N>` puts N verbatim into `{base}/index/event/N` when `pgai` is the only further word, and into `{base}/event/N` otherwise (four or more words included) |
| `Commands.EveryEventOccurrenceRemoved` | main.py:50 | every occurrence of `event` is removed from the second word, not only the leading one |
| `Commands.ChartModuleExactly` | main.py:56-64 | a chart module results iff the second word starts with `t` (and not `event`), its remainder is digits within `int()`'s 4300-digit limit and `int` of it is an allowed tier |
| `Commands.IntLimitRaisedExactly` | main.py:56-59 | the handler raises iff the second word starts with `t` (not `event`) and its remainder is digits over `int()`'s limit; the exception text gives the number of digits |
| `Commands.TierFromDigits` | main.py:56-64 | for digits T, `t<T>` raises over 4300 digits; otherwise it is accepted iff int(T) is allowed, and then the target is the base URL and the element `chart-<int(T)>`; otherwise the tier format error |
| `Commands.TierWord` | main.py:56-58 | a word `t<T>` starts with `t` and not with `event`, and removing `t` from it leaves T |
| `Commands.TierLeadingZeroNormalised` | main.py:59-64 | for any digits T, below the digit limit `t0<T>` parses as `t<T>` (accepted or refused alike), so the element id loses the leading zeros; at the limit the extra zero makes `int()` raise |
| `Commands.TierVerbatimWhenCanonical` | main.py:59-64 | without leading zeros, an allowed T is accepted and appears verbatim in the element id |
| `Commands.TierFormatErrorExactly` | main.py:56-61 | the tier format error results iff the second word starts with `t` (not `event`) and its remainder is not digits, or is digits within the limit but not an allowed tier |
| `Commands.UsageErrorExactly` | main.py:44-67 | the usage text results iff there are no words, or the second word starts neither with `event` nor with `t` |
| `Commands.TierListingIsAllowedSet` | main.py:9 | the listing in the tier message holds every allowed tier once and nothing else |
| `Commands.TierMessageListsTiers` | main.py:60 | the tier message, read back at the commas after its prefix, gives the listed tiers |
| `Naming.ScreenshotName` | main.py:81-86 | naming raises (with the unbound-variable text) exactly for the simple page when the command text contains `event`; otherwise the name is `sekai_<kind>_<id>.png` for the intent, except that an event page whose text lacks `event` gets the simple name |
| `Naming.ScreenshotPath` | main.py:87 | the path starts with the directory and `/`, and a name without `/` (not empty, not `.`) is joined as `dir/name` |
| `Naming.PathParts` | main.py:87 | pathlib keeps exactly the parts that are neither empty nor `.`, and keeps a list with no such part as it is |
| `Naming.PathPartsAppend` | main.py:87 | keeping parts distributes over putting part lists one after the other, so the kept parts stay in order |
| `Naming.NameFollowsIntent` | main.py:37-87 | for a parsed command whose first word lacks `event`, the handler's name is the one the intent calls for |
| `Naming.ExpectedNameInjective` | main.py:81-86 | the name determines the message id and the kind (`simple`, `event<N>`, `t<T>`) |
| `Naming.NoSlashInName` | main.py:81-86 | a message id without `/` gives a name without `/` |
| `Naming.DistinctIdsDistinctPaths` | main.py:81-87 | requests with different message ids, neither containing `/`, never write to the same path |
| `Naming.SlashIdsCollide` | main.py:81-87 | the ids `a/b` and `a//b` differ but give the same path |
| `Naming.DoubledSlashCollapses` | main.py:87 | a doubled `/` between two plain parts gives the same path as a single one |
| `Reporting.FailureMessage` | main.py:101-106 | the module-not-found text, made of its prefix, the element id and its suffix, results iff the error mentions `selector` and an element id is set; otherwise the failure prefix followed by the error text |
| `Reporting.Answer` | main.py:44-115 | once the command is parsed: nothing is deleted, a cleanup is scheduled exactly for an image and for that existing path, the handler raises exactly when the parse raised, and the page is the intent's page exactly when parsed and the browser started |
| `Reporting.Deliver` | main.py:69-115 | once the browser is asked for: the reply is a text or an image, nothing is deleted, and a cleanup is scheduled exactly for an image and for that existing path |
| `Reporting.Respond` | main.py:34-115 | the whole handler deletes nothing, raises exactly when the parse raises, and schedules a cleanup exactly for the image it sends, whose file exists |
| `Reporting.RefusalIsPlainText` | main.py:44-67 | a refused command is answered with the refusal's text; no browser is launched, no file is written, no cleanup scheduled |
| `Reporting.IntLimitEscapes` | main.py:59 | an over-long tier ends the handler with the `ValueError` and no reply; nothing is loaded, written or scheduled |
| `Reporting.PageLoaded` | main.py:72-78 | the browser is sent to the intent's page exactly when the command is parsed and starting the browser did not raise |
| `Reporting.ImageExactlyWhenFileExists` | main.py:110-115 | an image is sent iff the session completed and the named path exists afterwards, and then that path is the one scheduled for cleanup; a completed session whose file is missing gets the missing-file text |
| `Reporting.NoFileLeftBehind` | main.py:94-115 | the handler deletes nothing; every file it adds is the one scheduled for cleanup, except a PNG written before the session raised, which stays with nothing scheduled |
| `Reporting.DeliverAddsOnlyCleanup` | main.py:94-115 | the same for the session part alone: every added file is the scheduled cleanup or the PNG left behind by a session that raised |
| `Reporting.DeliverImageExactly` | main.py:110-115 | the same for the session part alone: an image iff the session completed and the named path exists, the missing-file text when it does not |
| `Reporting.CleanupRestoresFiles` | main.py:94-121 | the cleanup is scheduled exactly for the image sent, and deleting it leaves the files as before, less that path; with no cleanup the files are those before plus a PNG written before the session raised |
| `Reporting.GenericFailureText` | main.py:103-105 | without an element id, every error is reported as the failure prefix followed by the error text |
| `Reporting.CaptureFailureClassified` | main.py:89-107 | a capture exception is answered with `FailureMessage`, naming the module iff the error mentions `selector` and a chart was requested; nothing is scheduled, and a PNG written before the exception stays |
| `Reporting.LaunchFailureClassified` | main.py:72-75 | a failure while starting the browser is answered and classified by `FailureMessage`; no page is loaded, nothing is written or scheduled |
| `Reporting.NavigationFailureClassified` | main.py:78 | a failure loading the page is answered and classified the same way |
| `Reporting.UnboundEventNumberReported` | main.py:72-84 | a one-word command containing `event` is answered with the failure prefix and the unbound-variable error, once the browser has started and the page has loaded |
| `Plugin.ScreenshotPlugin.constructor` | main.py:20-29 | the plugin starts with its temporary directory and the files already on disk |
| `Plugin.ScreenshotPlugin.Handle` | main.py:34-115 | the reply, the scheduled cleanup, the page loaded and the new set of files are those of `Respond` |
| `Plugin.ScreenshotPlugin.CleanTempFile` | main.py:117-122 | removes exactly that path if present, and nothing else |
| `Plugin.ScreenshotPlugin.HandleThenCleanUp` | main.py:110-121 | after a command and its cleanup, the files are those before, less the file that was sent, plus a PNG written before the session raised |
| `Scenarios.WordsOfPlainMessage` | main.py:37-39 | a message of lower-case words separated by single blanks splits into those words |
| `Scenarios.BareText` | main.py:37-39 | the text `cnskp` is the single word `cnskp` |
| `Scenarios.BareCommand` | main.py:45-86 | a message whose words are `cnskp` gives the simple page, named `sekai_simple_<id>.png` |
| `Scenarios.EventCommand` | main.py:48-84 | a message whose words are `cnskp event150` gives event page 150, named `sekai_event150_<id>.png` |
| `Scenarios.IndexEventCommand` | main.py:55 | the words `cnskp event150 pgai` give the index variant of event page 150 |
| `Scenarios.EventPageLoaded` | main.py:48-78 | for the words `cnskp event150`, once the browser has started, it is sent to `{base}/event/150` |
| `Scenarios.IndexEventPageLoaded` | main.py:48-78 | for the words `cnskp event150 pgai`, once the browser has started, it is sent to `{base}/index/event/150` |
| `Scenarios.UnknownTierCommand` | main.py:59-61 | the words `cnskp t999` give the tier format error |
| `Scenarios.TierCommand` | main.py:56-82 | the words `cnskp t100` give chart module 100, element `chart-100`, named `sekai_t100_<id>.png` |
| `Scenarios.MissingModuleCommand` | main.py:101-106 | for the words `cnskp t100`, a capture error mentioning `selector` gives the text naming `chart-100` as missing |
| `Scenarios.CaptureLeftOnDisk` | main.py:96-107 | for the words `cnskp`, an exception after the page was captured gives the failure text, schedules nothing and leaves `sekai_simple_<id>.png` on disk |

## Left out

- The browser session is one abstract step, `Session`. This covers the headless launch, context and
  page, `goto` with its 60 s timeout, `wait_for_selector` with its 15 s timeout, scrolling, the
  1280×720 viewport, the screenshots and `browser.close()` (main.py:72-99). These are a foreign
  library and I/O. The model records only whether starting the browser raised, the URL the browser
  is then sent to, whether a later step raised, with which text, and whether the PNG was written by
  then.
- `asyncio.create_task` and the 30 s `asyncio.sleep` (main.py:113, 119) are concurrency and
  timing. The handler returns the path whose cleanup it schedules, and `CleanTempFile` is a
  separate method called later. Another process could delete the file between the existence check
  and `os.remove`; that race is not modelled.
- The host framework (`@register`, `@filter.command`, the event object, `plain_result` and
  `image_result`, the logger; main.py:1-33, 124-126) is represented by the `Reply` datatype. What
  the framework does with an exception escaping the handler (`Unhandled`) is not modelled.
- `initialize` creating the temporary directory (main.py:28-29): the directory is assumed to exist.
  Its path is taken as already normalised, not the root, and `..` parts are kept as pathlib keeps
  them.
- `lower()` is modelled for ASCII letters only, and `isdigit()` for ASCII digits only. Python's
  Unicode case mapping is not modelled. Neither is `int()` raising on non-ASCII digits such as `²`,
  which happens outside the `try`. Whitespace for `strip()` and `split()` is Python's full
  `isspace()` set.
- `Commands.TFormatMessage`: the tiers are listed in increasing order. The source joins a Python
  `set`, whose iteration order is an implementation detail of CPython's hash table.
- The text of the unbound-variable exception is that of current CPython versions (3.11 and later).
  Earlier versions word it differently. The `int()` digit limit and its message are those of CPython
  3.12 with the default setting. The limit can be changed with `sys.set_int_max_str_digits` or
  `PYTHONINTMAXSTRDIGITS`. It also exists in the security releases 3.10.7, 3.9.14, 3.8.14 and 3.7.14,
  whose message reads "(4300)" without the word "digits"; older releases have no limit.
- `Naming.DistinctIdsDistinctPaths`: promised only for message ids without `/`. pathlib collapses
  repeated slashes and drops `.` parts, so ids with `/` can share a path (`Naming.SlashIdsCollide`).
- The message id is taken as a string, as the f-string renders it.
