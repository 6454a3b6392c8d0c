# page-reader, modelled in Dafny

`page-reader` is a small Go library that fetches a web page with a headless
browser (chromedp) and keeps its outer HTML. This project models its core:

- the `PageReader` object. This covers its timeout configuration, its
  setters and accessors, the fixed extra HTTP headers, `Contains`, and the
  timeout-escalation policy of `PageSource`. After a deadline error,
  `PageSource` raises the timeout by 10 and the retry counter by 1. While
  both stay within their ceilings, it calls itself again on its value
  receiver (a copy of the reader).
- the generic `Retry` loop. It calls a function until the function succeeds
  or the counter passes the cap. It logs before each call, and it logs the
  error and sleeps one second between calls.
- the `Notify` record. This covers its constructor, the timestamped
  `AddLog`/`AddLogf` entries and the text summary `String`.

These parts live in these files:

- `common.dfy`: module `Common`, with `Option` and list associativity.
- `gostrings.dfy`: module `GoStrings`, with `strings.TrimSpace` over
  `unicode.IsSpace` and `strings.Contains`.
- `pagereader.dfy`: module `Reader`.
- `retry.dfy`: module `Retries`.
- `notify.dfy`: module `Notifications`.

The things the library talks to appear in the model as follows:

- **The browser.** One run of the browser task list is an oracle. For the
  attempt made with a given retry counter and timeout, it says whether:
  - the outer HTML was captured;
  - the deadline passed;
  - or another error ended the run.
- **The goquery parse** is an oracle too.
- **The retried function** of `Retry` is an oracle indexed by the loop
  counter.
- **Logging and sleeping** are the events the loop emits, in order.
- **Clocks.** The current time is a parameter, passed as its rendered text,
  and so is the `%.2f` seconds figure.

Value receivers are modelled as copies:

- `PageSource` copies the reader into a `ReaderValue` and works on that copy,
  so the reader itself is provably unchanged.
- `String` works on a `NotifyValue` copy.

Objects whose fields the code updates in place (`PageReader`, `Notify`) are
Dafny classes. Their setters are methods with `modifies this`.

## Model

| member | source | states |
|---|---|---|
| Reader.PageReader.constructor | pagereader.go:23-36 | A new reader has `Timeout` = the argument, `MaxTimeout` = twice it, `RetryTimes` = 1 and `MaxRetryTimes` = 3. Its URL and markup are empty and it has no document. |
| Reader.PageReader.SetMaxTryTimes | pagereader.go:38-44 | `MaxRetryTimes` becomes the argument, or 1 when the argument is not positive, so it is always at least 1. No other field changes, and the reader itself is returned. |
| Reader.PageReader.SetUrl | pagereader.go:46-49 | Only the URL changes, and the reader itself is returned. |
| Reader.PageReader.HtmlSource | pagereader.go:51-53 | Returns the markup stored on the reader. |
| Reader.StoredMarkupStaysEmpty | pagereader.go:23-116 | A reader made by `NewPageReader` and then used through `SetUrl`, `SetMaxTryTimes` and `PageSource` still holds no markup. So `HtmlSource()` is empty, and `Contains(s)` holds exactly for the empty `s`. |
| Reader.PageReader.Headers | pagereader.go:55-62 | The extra headers are exactly `accept-encoding`, `accept-language` and `upgrade-insecure-requests`, with the values `gzip, deflate, br`, `zh-CN,zh;q=0.9` and `1`. |
| Reader.ClampTimeout | pagereader.go:66-68 | A hint in (0, `Timeout`] is kept and anything else becomes `Timeout`. The result never exceeds `Timeout`, and it is positive whenever `Timeout` is. |
| Reader.AttemptResult | pagereader.go:74-96 | An attempt reports no error exactly when the markup was captured. The captured markup comes back trimmed of Unicode white space. A deadline error is reported as `DeadlineExceeded` and nothing else is. A failed attempt returns empty markup. |
| Reader.Attempts | pagereader.go:64-105 | The chain of attempts is never empty. The first attempt runs with the reader's own counter and the clamped hint. |
| Reader.AttemptsShape | pagereader.go:97-103 | Attempt `i` asks the browser with counter `RetryTimes + i`. Another attempt follows exactly when this one hit the deadline, its raised timeout is at most `MaxTimeout` and its raised counter is at most `MaxRetryTimes`. The next attempt's timeout is this one's plus 10, clamped again to `Timeout`. |
| Reader.AttemptsWithinTimeout | pagereader.go:66-102 | Every attempt runs with a timeout of at most `Timeout`, and a positive one when `Timeout` is positive. An escalated timeout is clamped back on the recursive call. |
| Reader.OnlyDeadlineRetries | pagereader.go:97-98 | A first attempt that succeeds, or fails with any error other than a deadline, is the only attempt. |
| Reader.AttemptsBounded | pagereader.go:100-101 | Starting from counter `r`, at most `1 + max(0, MaxRetryTimes - r)` attempts are made. Every attempt after the first runs with a counter of at most `MaxRetryTimes`. |
| Reader.LastAttemptDecides | pagereader.go:97-103 | Every attempt but the last hit the deadline. The last attempt reports success exactly when some attempt captured the page, and then it returns that page trimmed. |
| Reader.PageSourceOn | pagereader.go:64-108 | `PageSource` written as the Go code is, on the copy. The attempts it makes are `Attempts`, and what it returns is the first attempt's result. The recursive call's result is discarded. |
| Reader.PageReader.PageSource | pagereader.go:64-108 | The reader is unchanged, the attempts are `Attempts` from the reader's configuration, and the result is the first attempt's. |
| Reader.RetryResultDiscarded | pagereader.go:101-107 | Take a reader with `Timeout` 20 whose first attempt hits the deadline and whose second captures `<html></html>`. Two attempts are made, but the first attempt's empty markup and deadline error are what is returned. |
| Reader.PageSourceLoop | pagereader.go:64-107 | The escalation with the retry's result kept. It makes the same attempts and returns the last attempt's result. It succeeds exactly when some attempt captured the page, and then it returns that page trimmed. |
| Reader.PageReader.Contains | pagereader.go:110-116 | As written: it holds exactly when the stored markup is empty and `s` is empty. |
| Reader.PageReader.ContainsFixed | pagereader.go:110-116 | It holds exactly when the stored markup is not empty and `s` occurs in it at some position. |
| Reader.ContainsMissesStoredText | pagereader.go:110-116 | A reader holding `<p>hi</p>` says it does not contain `hi`, although `hi` occurs at position 3. The corrected version says it does. |
| GoStrings.TrimLeft | pagereader.go:87-89 | The result is a suffix of the input. Everything removed is white space, and the result does not start with white space. |
| GoStrings.TrimRight | pagereader.go:87-89 | The result is a prefix of the input. Everything removed is white space, and the result does not end with white space. |
| GoStrings.TrimSpace | pagereader.go:87-89 | The result is the slice of the input that starts after its leading white space. Everything before and after that slice is white space, and the slice has no white space at either end. It is empty exactly when the input is all white space. |
| GoStrings.TrimBothEnds | pagereader.go:87-89 | Trimming the left end and then the right end leaves the slice between two runs of white space. |
| GoStrings.TrimSpaceKeepsTrimmed | pagereader.go:87-89 | Text with no white space at its ends is left as it is. This is why the empty-markup guard before trimming changes nothing. |
| GoStrings.TrimSpaceIdempotent | pagereader.go:87-89 | Trimming twice is trimming once. |
| GoStrings.ContainsTextAt | pagereader.go:113 | `strings.Contains(h, s)` holds exactly when `s` occurs in `h` at some position. |
| GoStrings.ContainsTextInEmpty | pagereader.go:112-113 | Empty text contains only the empty string. |
| Retries.Cap | retry.go:11-13 | A `maxTimes` below 1 is taken as 1, and the cap is always at least 1. |
| Retries.Retry | retry.go:10-27 | The loop emits exactly the events `RetryLog`. It makes between 1 and `cap + 1` calls. Every call before the last failed, and the last call either succeeded or was made with the counter at `cap + 1`. |
| Retries.LastIteration | retry.go:15-19 | An iteration that breaks adds only its log line and its call. |
| Retries.NextIteration | retry.go:15-25 | An iteration that goes on adds its log line, its call, the error line and a sleep, and is followed by the next counter's iteration. |
| Retries.OpeningCounts | retry.go:16-17 | The log line and the call count one call and one counter, and no sleep. |
| Retries.ClosingCounts | retry.go:21-24 | The error line and the sleep count one sleep, and no call and no counter. |
| Retries.RunFromShape | retry.go:15-26 | From any counter up to `cap + 1`: there is at least one call, and there are at most `cap + 2 - current` calls. There is one sleep fewer than there are calls. The counters are logged consecutively, one per call. Every call before the last failed, and the last call succeeded or was made at `cap + 1`. |
| Retries.RetryShape | retry.go:10-27 | The same from counter 1 with the clamped cap: the counters are 1, 2, … and there are at most `cap + 1` calls. |
| Retries.AllFailuresExhaustRetries | retry.go:18-26 | If every call fails, exactly `cap + 1` calls are made. |
| Retries.FirstSuccessStops | retry.go:16-19 | A first call that succeeds is the only event after its log line: no error line and no sleep. |
| Retries.ErrorLoggedOnlyBeforeRetry | retry.go:18-25 | The last event is always a call, whose error is never logged. Every error line is followed by a sleep and by the next counter's log line. |
| Notifications.Notify.constructor | notify.go:17-24 | A new notifier keeps its names, starts at `now`, has the zero end time, no logs and no error. |
| Notifications.Notify.AddLog | notify.go:26-29 | Exactly one entry, `now > msg`, is appended, with the message taken literally. Nothing else changes, and the notifier itself is returned. |
| Notifications.Notify.AddLogf | notify.go:31-34 | Exactly one entry is appended: the timestamp and ` > ` prefixed to the format, then formatted with the arguments. Nothing else changes. |
| Notifications.AddLogfMatchesAddLog | notify.go:26-34 | When the timestamp holds no `%`, `AddLogf` appends what `AddLog` would append for the formatted message. For a plain format without arguments, this is the message as it is. |
| Notifications.SprintfLiteralPrefix | notify.go:32 | Text without `%` in front of a format is printed unchanged in front of the rest. |
| Notifications.SprintfPlain | notify.go:32 | A format without verbs and without arguments prints as it is. |
| GoStrings.Utf8 | notify.go:32 | One code point becomes one to four bytes. The result is a single byte exactly below U+0080. For longer results, the lead byte announces the length and the other bytes are continuation bytes. |
| GoStrings.Utf8RoundTrip | notify.go:32 | Decoding the bytes of a code point gives that code point back. |
| GoStrings.Utf8Encode | notify.go:32 | The bytes of a string are its code points' encodings: between one and four bytes per code point, each a byte value. |
| Notifications.HexDigit | notify.go:32 | The digit for a value below 16 reads back as that value. It is a decimal digit below 10, and otherwise a letter in the case the verb asks for. |
| Notifications.HexValue | notify.go:32 | The value of a hexadecimal digit is below 16. |
| Notifications.HexBytes | notify.go:32 | `%x` and `%X` print two digits per byte. |
| Notifications.HexBytesReadBack | notify.go:32 | Every byte can be read back from its two digits, the high four bits first. |
| Notifications.UnquoteHex | notify.go:32 | A `\x` escape reads back as the byte its two digits spell. |
| Notifications.UnquoteEscape | notify.go:32 | A one-letter escape reads back as the character it stands for. |
| Notifications.UnquotePlain | notify.go:32 | A character other than a backslash reads back as itself. |
| Notifications.UnquoteQuoteChar | notify.go:32 | Every code point as `%q` writes it reads back as that code point, whatever follows it. |
| Notifications.UnquoteQuoteText | notify.go:32 | Reading back the quoted text of a string gives the string, so `%q` loses nothing. |
| Notifications.FormatHexExample | notify.go:32 | `%x` of `hi` is `6869`. |
| Notifications.FormatUpperHexExample | notify.go:32 | `%X` of `é` is `C3A9`, its two UTF-8 bytes. |
| Notifications.FormatQuoteExample | notify.go:32 | `%q` of `a"b` followed by a newline escapes the quote and the newline between the quotes. |
| Notifications.FormatOtherExamples | notify.go:32 | `%T` of a string prints `string`, and `%d` of `a` prints `%!d(string=a)`. |
| Notifications.SprintfQuoteExample | notify.go:32 | `Sprintf("%q", "a")` is `a` between double quotes. |
| Notifications.SprintfLogfExample | notify_test.go:11 | The test's `AddLogf("abc%sef", "d")` message formats to `abcdef`. |
| Notifications.Notify.String | notify.go:36-65 | The summary is `Render` of the notifier's current value. The method has no `modifies` clause, so the notifier is not changed, even though the zero end time is replaced on the copy. |
| Notifications.JoinLogLines | notify.go:58-61 | The loop's block is every entry in order, each indented by 15 spaces and ended by a newline. |
| Notifications.RenderSuccess | notify.go:43-48 | The success line reads `true` exactly when there is no error, and `false` exactly when there is one. |
| Notifications.RenderError | notify.go:49-53 | With an error, the error line follows the success line. Without one, what follows the success line is nothing or the `Logs:` block. |
| Notifications.RenderLogs | notify.go:54-63 | The log block comes last, and nothing before it depends on the logs. It appears exactly when there are logs: the `Logs:` line, then every entry in order. |
| Notifications.RenderAfterAppend | notify.go:26-63 | One more entry extends the summary by that entry's line at its end. For the first entry, the `Logs:` line comes before it. |
| Notifications.LogsPartAppend | notify.go:54-63 | The log part grows by the new entry's line, with the `Logs:` line first when it is the first entry. |
| Notifications.LogBlockAppend | notify.go:59-61 | The block of two runs of entries is the two blocks one after the other. |
| Notifications.LogBlockOne | notify.go:60 | A one-entry block is that entry's indented line. |
| Notifications.LogBlockCons | notify.go:59-61 | The block of an entry followed by more entries is that entry's line, then the block of the rest. |
| Notifications.LogBlockAt | notify.go:59-61 | Entry `i`'s line sits between the block of the entries before it and the block of the entries after it. |
| Notifications.RenderZeroEndTime | notify.go:44-46 | A zero end time renders exactly as if it had been set to `now`. |

## Left out

- The chromedp wrapper (`ChromeDP.Start`, `Cancel`, `Context`, `RunWithTimeOut`) is not part of this model. Nor is the browser task list itself (network enable, extra headers, navigate, get document, get outer HTML). One run of it is the `Browser.attempt` oracle.
- The logger is left out: its `[ Page Reader ] ` prefix in `NewPageReader` and the `Time %d：%s` line `PageSource` logs. In `Retry`, log lines are events.
- `time.Sleep` in `Retry` is the `Slept` event; no time passes.
- The goquery document is known only by its markup, and parsing is an oracle. `Text`, `Attr` and `findBySelector` (pagereader.go:118-133) are left out: they only forward a possibly nil selection to goquery.
- The test-file APIs of `pagereader_test.go` (`Open`, `Title`, `Debug` and similar) are not part of this model. A description of `Contains` as a case-insensitive search does not match pagereader.go, which is case-sensitive (and inverted, see Findings). The model follows the code.
- Reader.AttemptResult: a failed attempt returns empty markup. The model does not track whether the browser wrote a partial value into the named result before failing, because the outer-HTML step is the last one that can fail.
- Clocks: `time.Now()`, the `2006-01-02 15:04:05` layout and `time.Time` rendering are left out. The rendered instant is a parameter, as text. `EndTime.Sub(StartingTime).Seconds()` with `%.2f` is the `seconds` parameter of `Render`/`String`.
- Notifications.Sprintf: only string arguments are modelled. It covers the verbs `%s`, `%v`, `%q`, `%x`, `%X`, `%T` and `%%`, plus the `MISSING`, `NOVERB`, `EXTRA` and bad-verb forms of `fmt`. Flags, width, precision and argument indexes are left out: a flag or a digit after `%` is read as a bad verb. Non-string arguments are left out too.
- Notifications.Quote: ASCII is escaped as `strconv.Quote` does. Non-ASCII code points are kept as they are. Go escapes those that `unicode.IsPrint` rejects, such as U+00A0 or U+2028, as `\u00a0`. The printable-character tables are not modelled.
- Notifications.Notify.String: the `Error` field is modelled as the text its `Error()` method returns.
- Strings are sequences of Unicode code points, not UTF-8 bytes. `strings.Contains` and `strings.TrimSpace` agree on both views.
- Integers are unbounded. Go's `int` overflow of `timeout * 2` or `timeout += 10` is not modelled.

## Findings

| source | as written | input that shows it | evidently intended | confidence | as-written member | corrected member |
|---|---|---|---|---|---|---|
| pagereader.go:110-116 | `Contains` calls `strings.Contains` only when the stored markup is empty, and returns false otherwise | a reader holding `<p>hi</p>`, asked for `hi`; through the operations of pagereader.go alone the field stays empty (`Reader.StoredMarkupStaysEmpty`), so the stored page has to come from other code of the package writing the field | search the stored markup when it is not empty | not executed | Reader.PageReader.Contains, Reader.ContainsMissesStoredText | Reader.PageReader.ContainsFixed |
| pagereader.go:97-107 | after a deadline the recursive `pr.PageSource(timeout)` result is discarded, and the first attempt's empty markup and deadline error are returned; its markup lands on a copy | `Config(20, 40, 1, 3)`, a first attempt that hits the deadline and a second that captures `<html></html>` | return what the retry produced | not executed | Reader.PageSourceOn, Reader.RetryResultDiscarded | Reader.PageSourceLoop |
