/**
 * The operation notifier (notify.go): a record of one operation with an
 * append-only list of timestamped log entries and an optional error, and
 * its text summary. Clock readings are parameters: a `Time` is known only
 * by its rendered text, and the `%.2f` seconds figure is whatever the
 * `seconds` function makes of the start and end times.
 */
module Notifications {
  import opened Common
  import GoStrings

  /** A `time.Time`: the zero time, or an instant rendered as `stamp`. */
  datatype Time = Zero | At(stamp: string)

  /** How `%s` renders a `time.Time`. */
  function TimeText(t: Time): string {
    match t
    case Zero => "0001-01-01 00:00:00 +0000 UTC"
    case At(stamp) => stamp
  }

  /** A `Notify` as a value: what the value receiver of `String` gets a copy of. */
  datatype NotifyValue = NotifyValue(
    functionName: string,
    markName: string,
    startingTime: Time,
    endTime: Time,
    logs: seq<string>,
    error: Option<string>)

  /** The entry `AddLog` appends: the timestamp, `" > "`, and the message as it is. */
  function LogEntry(now: string, msg: string): string {
    now + " > " + msg
  }

  /** The 15 spaces in front of each rendered log entry. */
  const Indent := "               "

  /** One rendered log entry. */
  function LogLine(entry: string): string {
    Indent + entry + "\n"
  }

  /** The rendered log entries, in order. */
  function LogBlock(logs: seq<string>): string {
    if logs == [] then "" else LogLine(logs[0]) + LogBlock(logs[1..])
  }

  /** The line that opens the log block. */
  const LogsHeading := "\n         Logs:\n"

  /** The line that shows the error. */
  const ErrorLabel := "\n       Error: "

  /** The line that shows whether the operation succeeded. */
  const SuccessLabel := "\n      Success: "

  /** The first five lines of the summary: names, times and elapsed seconds. */
  function Fields(functionName: string, markName: string, start: Time, end: Time, seconds: string): string {
    "\nFunction Name: " + functionName
    + "\n    Mark Name: " + markName
    + "\nStarting Time: " + TimeText(start)
    + "\n     End Time: " + TimeText(end)
    + "\n      Seconds: " + seconds + " seconds"
  }

  /** The end time `String` shows: a zero end time is replaced by `now`. */
  function EndShown(endTime: Time, now: string): Time {
    if endTime.Zero? then At(now) else endTime
  }

  /** The first five lines of the summary of `v`, rendered at `now`. */
  function Head(v: NotifyValue, now: string, seconds: (Time, Time) -> string): string {
    var end := EndShown(v.endTime, now);
    Fields(v.functionName, v.markName, v.startingTime, end, seconds(v.startingTime, end))
  }

  /**
   * `Notify.String()`: a zero end time is replaced by `now` on the copy; the
   * success flag is `Error == nil`; the error line is added when there is an
   * error, and the log block when there are logs.
   */
  function Render(v: NotifyValue, now: string, seconds: (Time, Time) -> string): string {
    Summary(Head(v, now, seconds), v.error) + LogsPart(v.logs)
  }

  /** The summary up to the log block: the fields, the success line and the error line if any. */
  function Summary(fields: string, error: Option<string>): string {
    fields
    + SuccessLabel + (if error == None then "true" else "false")
    + (if error.Some? then ErrorLabel + error.value else "")
  }

  /** The `Logs:` line and the entries, or nothing when there are none. */
  function LogsPart(logs: seq<string>): string {
    if |logs| > 0 then LogsHeading + LogBlock(logs) else ""
  }

  /** The log block of two runs of entries is the two blocks one after the other. */
  lemma {:induction false} LogBlockAppend(a: seq<string>, b: seq<string>)
    ensures LogBlock(a + b) == LogBlock(a) + LogBlock(b)
  {
    if a == [] {
      assert a + b == b;
    } else {
      assert (a + b)[0] == a[0];
      assert (a + b)[1..] == a[1..] + b;
      LogBlockAppend(a[1..], b);
    }
  }

  /** A one-entry block is that entry's line. */
  lemma LogBlockOne(entry: string)
    ensures LogBlock([entry]) == LogLine(entry)
  {
    assert [entry][1..] == [];
  }

  /** The block of an entry followed by more entries is the entry's line, then their block. */
  lemma LogBlockCons(entry: string, rest: seq<string>)
    ensures LogBlock([entry] + rest) == LogLine(entry) + LogBlock(rest)
  {
    assert ([entry] + rest)[1..] == rest;
  }

  /**
   * Each entry appears in the block once, in its place: the lines of the
   * entries before it, then 15 spaces, the entry and a newline, then the
   * lines of the entries after it.
   */
  lemma LogBlockAt(logs: seq<string>, i: int)
    requires 0 <= i < |logs|
    ensures LogBlock(logs) == LogBlock(logs[..i]) + LogLine(logs[i]) + LogBlock(logs[i + 1..])
  {
    var pre, post := logs[..i], logs[i + 1..];
    assert logs == pre + ([logs[i]] + post);
    LogBlockAppend(pre, [logs[i]] + post);
    LogBlockCons(logs[i], post);
    AppendAssoc(LogBlock(pre), LogLine(logs[i]), LogBlock(post));
  }

  /**
   * The success flag reads `true` exactly when there is no error, and `false`
   * exactly when there is one.
   */
  lemma RenderSuccess(v: NotifyValue, now: string, seconds: (Time, Time) -> string)
    ensures var head := Head(v, now, seconds);
      && (head + SuccessLabel + "true" <= Render(v, now, seconds) <==> v.error == None)
      && (head + SuccessLabel + "false" <= Render(v, now, seconds) <==> v.error != None)
  {
    var head := Head(v, now, seconds);
    var r := Render(v, now, seconds);
    var k := |head + SuccessLabel|;
    if v.error == None {
      assert r == head + SuccessLabel + "true" + r[k + 4..];
      assert r[k] == 't';
      assert (head + SuccessLabel + "false")[k] == 'f';
    } else {
      assert r == head + SuccessLabel + "false" + r[k + 5..];
      assert r[k] == 'f';
      assert (head + SuccessLabel + "true")[k] == 't';
    }
  }

  /**
   * With an error, the success line is followed by the error line; without
   * one, the success line is followed by nothing or by the log block.
   */
  lemma RenderError(v: NotifyValue, now: string, seconds: (Time, Time) -> string)
    ensures var head := Head(v, now, seconds);
      && (v.error.Some? ==> head + SuccessLabel + "false" + ErrorLabel + v.error.value <= Render(v, now, seconds))
      && (v.error.None? ==>
            var rest := Render(v, now, seconds)[|head + SuccessLabel + "true"|..];
            head + SuccessLabel + "true" <= Render(v, now, seconds) && (rest == "" || LogsHeading <= rest))
  {
  }

  /**
   * The log block comes last and nothing before it depends on the logs: the
   * summary is the summary without logs, then (when there are logs) the
   * `Logs:` line and every entry in order.
   */
  lemma RenderLogs(v: NotifyValue, now: string, seconds: (Time, Time) -> string)
    ensures Render(v, now, seconds)
      == Render(v.(logs := []), now, seconds) + if |v.logs| > 0 then LogsHeading + LogBlock(v.logs) else ""
  {
  }

  /**
   * Appending one entry extends the summary by one line at its end (and by
   * the `Logs:` line first, when it was the first entry).
   */
  lemma RenderAfterAppend(v: NotifyValue, entry: string, now: string, seconds: (Time, Time) -> string)
    ensures Render(v.(logs := v.logs + [entry]), now, seconds)
      == Render(v, now, seconds) + (if v.logs == [] then LogsHeading else "") + LogLine(entry)
  {
    var v' := v.(logs := v.logs + [entry]);
    var summary := Summary(Head(v, now, seconds), v.error);
    var heading := if v.logs == [] then LogsHeading else "";
    assert Head(v', now, seconds) == Head(v, now, seconds);
    assert Render(v', now, seconds) == summary + LogsPart(v.logs + [entry]);
    assert Render(v, now, seconds) == summary + LogsPart(v.logs);
    LogsPartAppend(v.logs, entry);
    AppendAssoc(summary, LogsPart(v.logs), heading + LogLine(entry));
    AppendAssoc(Render(v, now, seconds), heading, LogLine(entry));
  }

  /** The log part grows by the new entry's line (after the `Logs:` line, for a first entry). */
  lemma LogsPartAppend(logs: seq<string>, entry: string)
    ensures LogsPart(logs + [entry]) == LogsPart(logs) + ((if logs == [] then LogsHeading else "") + LogLine(entry))
  {
    LogBlockOne(entry);
    if logs == [] {
      assert logs + [entry] == [entry];
      assert LogsPart([entry]) == LogsHeading + LogLine(entry);
    } else {
      LogBlockAppend(logs, [entry]);
      assert LogsPart(logs + [entry]) == LogsHeading + (LogBlock(logs) + LogLine(entry));
      AppendAssoc(LogsHeading, LogBlock(logs), LogLine(entry));
    }
  }

  /** A zero end time renders exactly as if it had been set to `now`. */
  lemma RenderZeroEndTime(v: NotifyValue, now: string, seconds: (Time, Time) -> string)
    requires v.endTime.Zero?
    ensures Render(v, now, seconds) == Render(v.(endTime := At(now)), now, seconds)
  {
  }

  /** The `EXTRA` arguments part `fmt.Sprintf` appends for unused string arguments. */
  function ExtraArgs(args: seq<string>): string
    requires args != []
  {
    "string=" + args[0] + if |args| == 1 then "" else ", " + ExtraArgs(args[1..])
  }

  /** The hexadecimal digit for `d`: upper case for `%X`, lower case otherwise. */
  function HexDigit(d: int, upper: bool): (c: char)
    requires 0 <= d < 16
    ensures HexValue(c) == d
    ensures d < 10 ==> '0' <= c <= '9'
    ensures 10 <= d && upper ==> 'A' <= c <= 'F'
    ensures 10 <= d && !upper ==> 'a' <= c <= 'f'
  {
    if d < 10 then ('0' as int + d) as char
    else ((if upper then 'A' else 'a') as int + d - 10) as char
  }

  /** The value of a hexadecimal digit in either case (0 for anything else). */
  function HexValue(c: char): (v: int)
    ensures 0 <= v < 16
  {
    if '0' <= c <= '9' then c as int - '0' as int
    else if 'a' <= c <= 'f' then c as int - 'a' as int + 10
    else if 'A' <= c <= 'F' then c as int - 'A' as int + 10
    else 0
  }

  /** `%x` / `%X` of a byte string: two digits per byte, the high four bits first. */
  function HexBytes(bs: seq<int>, upper: bool): (r: string)
    requires forall i :: 0 <= i < |bs| ==> 0 <= bs[i] < 256
    ensures |r| == 2 * |bs|
  {
    if bs == [] then []
    else [HexDigit(bs[0] / 16, upper), HexDigit(bs[0] % 16, upper)] + HexBytes(bs[1..], upper)
  }

  /** Every byte can be read back from its two digits in `HexBytes`. */
  lemma {:induction false} HexBytesReadBack(bs: seq<int>, upper: bool)
    requires forall i :: 0 <= i < |bs| ==> 0 <= bs[i] < 256
    ensures var r := HexBytes(bs, upper);
      forall i :: 0 <= i < |bs| ==> HexValue(r[2 * i]) * 16 + HexValue(r[2 * i + 1]) == bs[i]
  {
    if bs != [] {
      var r, rest := HexBytes(bs, upper), HexBytes(bs[1..], upper);
      HexBytesReadBack(bs[1..], upper);
      forall i | 0 <= i < |bs| ensures HexValue(r[2 * i]) * 16 + HexValue(r[2 * i + 1]) == bs[i] {
        if i > 0 {
          assert bs[i] == bs[1..][i - 1];
          assert r[2 * i] == rest[2 * (i - 1)] && r[2 * i + 1] == rest[2 * (i - 1) + 1];
        }
      }
    }
  }

  /** How `strconv.Quote` writes one code point between the quotes. */
  function QuoteChar(c: char): string {
    if c == '"' then ['\\', '"']
    else if c == '\\' then ['\\', '\\']
    else if c == '\U{0007}' then ['\\', 'a']
    else if c == '\U{0008}' then ['\\', 'b']
    else if c == '\U{000C}' then ['\\', 'f']
    else if c == '\n' then ['\\', 'n']
    else if c == '\r' then ['\\', 'r']
    else if c == '\t' then ['\\', 't']
    else if c == '\U{000B}' then ['\\', 'v']
    else if c < ' ' || c == '\U{007F}' then ['\\', 'x', HexDigit(c as int / 16, false), HexDigit(c as int % 16, false)]
    else [c]
  }

  /** The text between the quotes of `strconv.Quote(s)`. */
  function QuoteText(s: string): string {
    if s == [] then "" else QuoteChar(s[0]) + QuoteText(s[1..])
  }

  /** `%q` of a string: `strconv.Quote`. */
  function Quote(s: string): string {
    "\"" + QuoteText(s) + "\""
  }

  /** The character a backslash escape of `QuoteChar` stands for. */
  function Unescape(e: char): char {
    if e == 'a' then '\U{0007}'
    else if e == 'b' then '\U{0008}'
    else if e == 'f' then '\U{000C}'
    else if e == 'n' then '\n'
    else if e == 'r' then '\r'
    else if e == 't' then '\t'
    else if e == 'v' then '\U{000B}'
    else e
  }

  /** Reads back the text between the quotes that `QuoteText` writes. */
  function UnquoteText(q: string): string
    decreases |q|
  {
    if q == [] then ""
    else if q[0] == '\\' && |q| >= 4 && q[1] == 'x' then
      [(HexValue(q[2]) * 16 + HexValue(q[3])) as char] + UnquoteText(q[4..])
    else if q[0] == '\\' && |q| >= 2 then [Unescape(q[1])] + UnquoteText(q[2..])
    else [q[0]] + UnquoteText(q[1..])
  }

  /** A `\\x` escape is read back as the byte its two digits spell. */
  lemma UnquoteHex(h: char, l: char, rest: string)
    ensures UnquoteText(['\\', 'x', h, l] + rest) == [(HexValue(h) * 16 + HexValue(l)) as char] + UnquoteText(rest)
  {
    assert (['\\', 'x', h, l] + rest)[4..] == rest;
  }

  /** A one-letter escape is read back as the character it stands for. */
  lemma UnquoteEscape(e: char, rest: string)
    requires e != 'x'
    ensures UnquoteText(['\\', e] + rest) == [Unescape(e)] + UnquoteText(rest)
  {
    assert (['\\', e] + rest)[2..] == rest;
  }

  /** A character other than a backslash is read back as itself. */
  lemma UnquotePlain(c: char, rest: string)
    requires c != '\\'
    ensures UnquoteText([c] + rest) == [c] + UnquoteText(rest)
  {
    assert ([c] + rest)[1..] == rest;
  }

  /** One quoted code point is read back as that code point, whatever follows it. */
  lemma UnquoteQuoteChar(c: char, rest: string)
    ensures UnquoteText(QuoteChar(c) + rest) == [c] + UnquoteText(rest)
  {
    var q := QuoteChar(c);
    if |q| == 4 {
      assert q == ['\\', 'x', q[2], q[3]];
      assert (c as int / 16) * 16 + c as int % 16 == c as int;
      UnquoteHex(q[2], q[3], rest);
    } else if |q| == 2 {
      assert q == ['\\', q[1]] && Unescape(q[1]) == c;
      UnquoteEscape(q[1], rest);
    } else {
      UnquotePlain(c, rest);
    }
  }

  /** `UnquoteText` undoes `QuoteText`: quoting loses nothing. */
  lemma {:induction false} UnquoteQuoteText(s: string)
    ensures UnquoteText(QuoteText(s)) == s
  {
    if s != [] {
      UnquoteQuoteChar(s[0], QuoteText(s[1..]));
      UnquoteQuoteText(s[1..]);
    }
  }

  /**
   * How one verb prints one string argument: `%s` and `%v` the string,
   * `%q` the quoted string, `%x` / `%X` its UTF-8 bytes in hexadecimal,
   * `%T` its type, and any other verb a bad-verb report.
   */
  function FormatArg(verb: char, arg: string): string {
    if verb == 's' || verb == 'v' then arg
    else if verb == 'q' then Quote(arg)
    else if verb == 'x' then HexBytes(GoStrings.Utf8Encode(arg), false)
    else if verb == 'X' then HexBytes(GoStrings.Utf8Encode(arg), true)
    else if verb == 'T' then "string"
    else "%!" + [verb] + "(string=" + arg + ")"
  }

  /**
   * `fmt.Sprintf(format, args...)` with string arguments: each verb prints
   * the next argument as `FormatArg` says, `%%` a percent sign, a missing
   * argument and a dangling `%` are reported inline, and unused arguments
   * are listed at the end.
   */
  function Sprintf(format: string, args: seq<string>): string
    decreases |format|
  {
    if format == [] then
      (if args == [] then "" else "%!(EXTRA " + ExtraArgs(args) + ")")
    else if format[0] != '%' then
      [format[0]] + Sprintf(format[1..], args)
    else if |format| == 1 then
      "%!(NOVERB)" + Sprintf([], args)
    else if format[1] == '%' then
      "%" + Sprintf(format[2..], args)
    else if args == [] then
      "%!" + [format[1]] + "(MISSING)" + Sprintf(format[2..], args)
    else
      FormatArg(format[1], args[0]) + Sprintf(format[2..], args[1..])
  }

  /** Text without `%` passes through `Sprintf` unchanged in front of the rest. */
  lemma {:induction false} SprintfLiteralPrefix(p: string, format: string, args: seq<string>)
    requires forall i :: 0 <= i < |p| ==> p[i] != '%'
    ensures Sprintf(p + format, args) == p + Sprintf(format, args)
  {
    if p == [] {
      assert p + format == format;
    } else {
      assert p == [p[0]] + p[1..];
      assert (p + format)[0] == p[0];
      assert (p + format)[1..] == p[1..] + format;
      assert Sprintf(p + format, args) == [p[0]] + Sprintf(p[1..] + format, args);
      SprintfLiteralPrefix(p[1..], format, args);
    }
  }

  /** A format without verbs and without arguments is printed as it is. */
  lemma SprintfPlain(format: string)
    requires forall i :: 0 <= i < |format| ==> format[i] != '%'
    ensures Sprintf(format, []) == format
  {
    SprintfLiteralPrefix(format, [], []);
    assert format + [] == format;
  }

  /**
   * With a timestamp free of `%`, an `AddLogf` entry is the `AddLog` entry
   * of the formatted message; for a message without verbs and arguments it is
   * exactly the `AddLog` entry of that message.
   */
  lemma AddLogfMatchesAddLog(now: string, format: string, args: seq<string>)
    requires forall i :: 0 <= i < |now| ==> now[i] != '%'
    ensures Sprintf(now + " > " + format, args) == LogEntry(now, Sprintf(format, args))
    ensures (args == [] && forall i :: 0 <= i < |format| ==> format[i] != '%') ==>
      Sprintf(now + " > " + format, args) == LogEntry(now, format)
  {
    var arrow := " > ";
    assert forall i :: 0 <= i < |arrow| ==> arrow[i] != '%';
    SprintfLiteralPrefix(arrow, format, args);
    AppendAssoc(now, arrow, format);
    SprintfLiteralPrefix(now, arrow + format, args);
    AppendAssoc(now, arrow, Sprintf(format, args));
    if args == [] && forall i :: 0 <= i < |format| ==> format[i] != '%' {
      SprintfPlain(format);
    }
  }

  /** The notifier test's `AddLogf("abc%sef", "d")` message formats to `abcdef`. */
  lemma SprintfLogfExample()
    ensures Sprintf("abc%sef", ["d"]) == "abcdef"
  {
    var format, args := "%sef", ["d"];
    assert format[0] == '%' && format[1] == 's' && format[2..] == "ef";
    assert args[0] == "d" && args[1..] == [];
    SprintfPlain("ef");
    assert Sprintf(format, args) == "d" + "ef";
    assert forall i :: 0 <= i < |"abc"| ==> "abc"[i] != '%';
    SprintfLiteralPrefix("abc", "%sef", ["d"]);
    assert "abc" + "%sef" == "abc%sef";
  }

  /** `%x` prints the UTF-8 bytes of a string in lower-case hexadecimal. */
  lemma FormatHexExample()
    ensures FormatArg('x', "hi") == "6869"
  {
    var hi := "hi";
    assert hi[1..] == "i" && hi[1..][1..] == [];
    assert GoStrings.Utf8Encode("i") == [0x69];
    assert GoStrings.Utf8Encode(hi) == [0x68, 0x69];
    assert HexBytes([0x69], false) == "69";
  }

  /** `%X` prints them in upper case, a code point above U+007F taking two bytes here. */
  lemma FormatUpperHexExample()
    ensures FormatArg('X', "\U{00E9}") == "C3A9"
  {
    var e := "\U{00E9}";
    assert e[1..] == [];
    assert GoStrings.Utf8(e[0]) == [0xC3, 0xA9];
    assert GoStrings.Utf8Encode(e) == [0xC3, 0xA9];
    assert HexBytes([0xA9], true) == "A9";
  }

  /** `%q` escapes quotes and control characters. */
  lemma FormatQuoteExample()
    ensures FormatArg('q', "a\"b\n") == "\"a\\\"b\\n\""
  {
    var s := "a\"b\n";
    assert s[1..] == "\"b\n" && s[2..] == "b\n" && s[3..] == "\n" && s[4..] == [];
    assert QuoteText(s[3..]) == "\\n";
    assert QuoteText(s[2..]) == "b\\n";
    assert QuoteText(s[1..]) == "\\\"b\\n";
    assert QuoteText(s) == "a\\\"b\\n";
  }

  /** `%T` prints the argument's type, and a verb strings do not take reports the argument. */
  lemma FormatOtherExamples()
    ensures FormatArg('T', "a") == "string"
    ensures FormatArg('d', "a") == "%!d(string=a)"
  {
  }

  /** The verb `%q` quotes its argument: `Sprintf("%q", "a")` is `"a"` with the quotes. */
  lemma SprintfQuoteExample()
    ensures Sprintf("%q", ["a"]) == "\"a\""
  {
    var format, args := "%q", ["a"];
    assert format[0] == '%' && format[1] == 'q' && format[2..] == [];
    assert args[1..] == [];
    assert QuoteText("a") == "a";
  }

  /** The operation notifier. */
  class Notify {
    var functionName: string
    var markName: string
    var startingTime: Time
    var endTime: Time
    var logs: seq<string>
    var error: Option<string>

    /** `NewNotify(functionName, markName)`, started at the instant `now`. */
    constructor (functionName: string, markName: string, now: string)
      ensures this.functionName == functionName && this.markName == markName
      ensures startingTime == At(now) && endTime == Zero
      ensures logs == [] && error == None
    {
      this.functionName := functionName;
      this.markName := markName;
      startingTime := At(now);
      endTime := Zero;
      logs := [];
      error := None;
    }

    /** The copy a value receiver works on. */
    function Value(): NotifyValue
      reads this
    {
      NotifyValue(functionName, markName, startingTime, endTime, logs, error)
    }

    /** `AddLog(msg)` at the instant rendered as `now`: appends one entry, changes nothing else. */
    method AddLog(msg: string, now: string) returns (self: Notify)
      modifies this
      ensures self == this
      ensures logs == old(logs) + [LogEntry(now, msg)]
      ensures Value() == old(Value()).(logs := old(logs) + [LogEntry(now, msg)])
    {
      logs := logs + [now + " > " + msg];
      self := this;
    }

    /**
     * `AddLogf(format, v...)` at the instant rendered as `now`: the timestamp
     * and `" > "` become part of the format, and one formatted entry is
     * appended.
     */
    method AddLogf(format: string, args: seq<string>, now: string) returns (self: Notify)
      modifies this
      ensures self == this
      ensures logs == old(logs) + [Sprintf(now + " > " + format, args)]
      ensures Value() == old(Value()).(logs := old(logs) + [Sprintf(now + " > " + format, args)])
    {
      logs := logs + [Sprintf(now + " > " + format, args)];
      self := this;
    }

    /**
     * `String()`: works on a copy (so the notifier is not changed), with
     * the log block built entry by entry.
     */
    method String(now: string, seconds: (Time, Time) -> string) returns (s: string)
      ensures s == Render(Value(), now, seconds)
    {
      var n := Value();
      if n.endTime.Zero? {
        n := n.(endTime := At(now));
      }
      ghost var fields := Head(Value(), now, seconds);
      s := Fields(n.functionName, n.markName, n.startingTime, n.endTime, seconds(n.startingTime, n.endTime));
      assert s == fields;
      s := s + SuccessLabel + (if n.error == None then "true" else "false");
      if n.error != None {
        AppendAssoc(s, ErrorLabel, n.error.value);
        s := s + ErrorLabel + n.error.value;
      }
      assert s == Summary(fields, n.error);
      if |n.logs| > 0 {
        var block := JoinLogLines(n.logs);
        AppendAssoc(s, LogsHeading, block);
        s := s + LogsHeading + block;
      }
    }
  }

  /** The loop of `String` that concatenates the rendered entries. */
  method JoinLogLines(logs: seq<string>) returns (block: string)
    ensures block == LogBlock(logs)
  {
    block := "";
    for i := 0 to |logs|
      invariant block == LogBlock(logs[..i])
    {
      LogBlockAppend(logs[..i], [logs[i]]);
      LogBlockOne(logs[i]);
      assert logs[..i + 1] == logs[..i] + [logs[i]];
      AppendAssoc(block + Indent, logs[i], "\n");
      AppendAssoc(block, Indent, logs[i]);
      AppendAssoc(block, Indent + logs[i], "\n");
      block := block + Indent + logs[i] + "\n";
    }
    assert logs[..|logs|] == logs;
  }
}
