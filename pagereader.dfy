/**
 * The page reader (pagereader.go): its timeout configuration, the
 * timeout-escalation policy of `PageSource`, and the small accessors.
 *
 * One browser attempt (enable the network domain, set the fixed headers,
 * navigate, read the outer HTML of the document root) is an oracle: the
 * `Browser` value tells, for the attempt made with a given retry counter and
 * timeout, whether the markup was captured, the deadline passed, or some other
 * error ended the run. The goquery parse of the captured markup is an oracle
 * too; as `Doc` only lives on the copy `PageSource` works on, it never reaches
 * the caller.
 */
module Reader {
  import opened Common
  import opened GoStrings

  /** The four fields of the reader's `Config` that the code uses. */
  datatype Config = Config(timeout: int, maxTimeout: int, retryTimes: int, maxRetryTimes: int)

  /** A parsed goquery document, known only by the markup it was built from. */
  datatype Document = Document(markup: string)

  /** What one run of the browser task list ends with. */
  datatype Outcome =
    | Captured(outerHtml: string)   // `chromedp.Run` returned nil after reading the outer HTML
    | Deadline                      // an error for which `errors.Is(err, context.DeadlineExceeded)` holds
    | Failed(message: string)       // any other error

  /** The error `PageSource` hands back. */
  datatype FetchError = DeadlineExceeded | BrowserError(message: string)

  /** The browser and the parser, as the page reader sees them. */
  datatype Browser = Browser(attempt: (int, int) -> Outcome, parses: string -> bool)

  /** A `PageReader` as a value: what a value receiver gets a copy of. */
  datatype ReaderValue = ReaderValue(config: Config, url: string, htmlSource: string, doc: Option<Document>)

  /** One attempt made by `PageSource`: the copy's retry counter, the timeout given to the browser, and how it ended. */
  datatype AttemptRecord = AttemptRecord(retryTimes: int, timeout: int, outcome: Outcome)

  /** The number of seconds added to the timeout after a deadline error. */
  const EscalationStep := 10

  /**
   * The timeout an attempt actually runs with: a hint in (0, limit] is kept,
   * anything else becomes the configured timeout.
   */
  function ClampTimeout(hint: int, limit: int): (t: int)
    ensures t <= limit
    ensures limit > 0 ==> 0 < t
    ensures 0 < hint <= limit ==> t == hint
    ensures !(0 < hint <= limit) ==> t == limit
  {
    if hint <= 0 || hint > limit then limit else hint
  }

  /** The `(htmlSource, err)` pair one attempt leaves in `PageSource`'s named results. */
  function AttemptResult(o: Outcome): (r: (string, Option<FetchError>))
    ensures r.1 == None <==> o.Captured?
    ensures o.Captured? ==> r.0 == TrimSpace(o.outerHtml)
    ensures o.Deadline? <==> r.1 == Some(DeadlineExceeded)
    ensures !o.Captured? ==> r.0 == ""
  {
    match o
    case Captured(raw) => (if raw != "" then TrimSpace(raw) else raw, None)
    case Deadline => ("", Some(DeadlineExceeded))
    case Failed(m) => ("", Some(BrowserError(m)))
  }

  /**
   * Whether an attempt made with configuration `c` and timeout `t` that ended
   * with `o` is followed by another one: only a deadline error escalates, and
   * only while the raised timeout and the raised counter stay within their
   * ceilings.
   */
  predicate Escalates(c: Config, t: int, o: Outcome) {
    o.Deadline? && t + EscalationStep <= c.maxTimeout && c.retryTimes + 1 <= c.maxRetryTimes
  }

  /**
   * The attempts one call of `PageSource` makes, in order, starting from
   * configuration `c` and the timeout hint `hint`.
   */
  function Attempts(c: Config, hint: int, b: Browser): (rs: seq<AttemptRecord>)
    ensures |rs| >= 1
    ensures rs[0].retryTimes == c.retryTimes && rs[0].timeout == ClampTimeout(hint, c.timeout)
    decreases c.maxRetryTimes - c.retryTimes
  {
    var t := ClampTimeout(hint, c.timeout);
    var o := b.attempt(c.retryTimes, t);
    if Escalates(c, t, o) then
      [AttemptRecord(c.retryTimes, t, o)] + Attempts(c.(retryTimes := c.retryTimes + 1), t + EscalationStep, b)
    else
      [AttemptRecord(c.retryTimes, t, o)]
  }

  /**
   * Every attempt runs with a timeout no larger than `Config.Timeout` (and a
   * positive one when that is positive): an escalated timeout above it is
   * clamped back on the next call.
   */
  lemma {:induction false} AttemptsWithinTimeout(c: Config, hint: int, b: Browser)
    ensures forall i :: 0 <= i < |Attempts(c, hint, b)| ==>
      Attempts(c, hint, b)[i].timeout <= c.timeout && (c.timeout > 0 ==> Attempts(c, hint, b)[i].timeout > 0)
    decreases c.maxRetryTimes - c.retryTimes
  {
    var t := ClampTimeout(hint, c.timeout);
    if Escalates(c, t, b.attempt(c.retryTimes, t)) {
      AttemptsWithinTimeout(c.(retryTimes := c.retryTimes + 1), t + EscalationStep, b);
    }
  }

  /**
   * The `i`-th attempt of `rs` is well placed: it asks the browser with its
   * own counter and timeout; its counter is the starting one plus `i`; it is
   * followed by another attempt exactly when it escalates (a deadline error
   * whose raised timeout is within `MaxTimeout` and whose raised counter is
   * within `MaxRetryTimes`); and the next attempt's timeout is its own plus
   * 10, clamped.
   */
  predicate AttemptPlaced(c: Config, rs: seq<AttemptRecord>, b: Browser, i: int)
    requires 0 <= i < |rs|
  {
    && rs[i].retryTimes == c.retryTimes + i
    && rs[i].outcome == b.attempt(rs[i].retryTimes, rs[i].timeout)
    && (i + 1 < |rs| <==> Escalates(c.(retryTimes := rs[i].retryTimes), rs[i].timeout, rs[i].outcome))
    && (i + 1 < |rs| ==> rs[i + 1].timeout == ClampTimeout(rs[i].timeout + EscalationStep, c.timeout))
  }

  /** Every attempt `PageSource` makes is placed as `AttemptPlaced` says. */
  lemma {:induction false} AttemptsShape(c: Config, hint: int, b: Browser)
    ensures forall i :: 0 <= i < |Attempts(c, hint, b)| ==> AttemptPlaced(c, Attempts(c, hint, b), b, i)
    decreases c.maxRetryTimes - c.retryTimes
  {
    var rs := Attempts(c, hint, b);
    var t := ClampTimeout(hint, c.timeout);
    if Escalates(c, t, b.attempt(c.retryTimes, t)) {
      var c' := c.(retryTimes := c.retryTimes + 1);
      AttemptsShape(c', t + EscalationStep, b);
      var rest := Attempts(c', t + EscalationStep, b);
      assert rs == [rs[0]] + rest;
      assert rs[1] == rest[0];
      forall i | 1 <= i < |rs| ensures AttemptPlaced(c, rs, b, i) {
        assert AttemptPlaced(c', rest, b, i - 1);
        assert rs[i] == rest[i - 1];
        assert c.(retryTimes := rs[i].retryTimes) == c'.(retryTimes := rest[i - 1].retryTimes);
        if i + 1 < |rs| {
          assert rs[i + 1] == rest[i];
        }
      }
      assert AttemptPlaced(c, rs, b, 0);
    }
  }

  /** A success or a non-deadline error ends `PageSource` after exactly one attempt. */
  lemma OnlyDeadlineRetries(c: Config, hint: int, b: Browser)
    requires !b.attempt(c.retryTimes, ClampTimeout(hint, c.timeout)).Deadline?
    ensures |Attempts(c, hint, b)| == 1
  {
  }

  /**
   * Starting from counter `r`, at most `1 + max(0, MaxRetryTimes - r)`
   * attempts are made, and every counter an attempt runs with after the first
   * is within `MaxRetryTimes`.
   */
  lemma {:induction false} AttemptsBounded(c: Config, hint: int, b: Browser)
    ensures |Attempts(c, hint, b)| <= 1 + if c.maxRetryTimes > c.retryTimes then c.maxRetryTimes - c.retryTimes else 0
    ensures forall i :: 1 <= i < |Attempts(c, hint, b)| ==> Attempts(c, hint, b)[i].retryTimes <= c.maxRetryTimes
    decreases c.maxRetryTimes - c.retryTimes
  {
    var t := ClampTimeout(hint, c.timeout);
    if Escalates(c, t, b.attempt(c.retryTimes, t)) {
      var c' := c.(retryTimes := c.retryTimes + 1);
      AttemptsBounded(c', t + EscalationStep, b);
      AttemptsShape(c', t + EscalationStep, b);
      var rs := Attempts(c, hint, b);
      var rest := Attempts(c', t + EscalationStep, b);
      forall i | 1 <= i < |rs| ensures rs[i].retryTimes <= c.maxRetryTimes {
        assert rs[i] == rest[i - 1];
      }
    }
  }

  /**
   * `PageSource` on the copy `pr` its value receiver received, written as the
   * Go code is: clamp the timeout, run one attempt, store its markup on the
   * copy, and after a deadline error raise timeout and counter and call itself
   * again, discarding what the inner call returns. `attempts` lists every
   * attempt of the chain; `htmlSource` and `err` are the first attempt's.
   */
  method PageSourceOn(copy: ReaderValue, hint: int, b: Browser)
    returns (htmlSource: string, err: Option<FetchError>, attempts: seq<AttemptRecord>)
    ensures attempts == Attempts(copy.config, hint, b)
    ensures (htmlSource, err) == AttemptResult(attempts[0].outcome)
    decreases copy.config.maxRetryTimes - copy.config.retryTimes
  {
    var pr := copy;
    var timeout := hint;
    if timeout <= 0 || timeout > pr.config.timeout {
      timeout := pr.config.timeout;
    }
    htmlSource, err := "", None;
    var outcome := b.attempt(pr.config.retryTimes, timeout);
    match outcome {
      case Captured(raw) =>
        htmlSource := raw;
        if htmlSource != "" {
          htmlSource := TrimSpace(htmlSource);
        }
        pr := pr.(htmlSource := htmlSource);
        if b.parses(htmlSource) {
          pr := pr.(doc := Some(Document(htmlSource)));
        }
      case Deadline =>
        err := Some(DeadlineExceeded);
      case Failed(m) =>
        err := Some(BrowserError(m));
    }
    ghost var c, t := pr.config, timeout;
    assert c == copy.config && t == ClampTimeout(hint, c.timeout);
    assert (htmlSource, err) == AttemptResult(outcome);
    attempts := [AttemptRecord(pr.config.retryTimes, timeout, outcome)];
    if err.Some? && err.value == DeadlineExceeded {
      timeout := timeout + EscalationStep;
      pr := pr.(config := pr.config.(retryTimes := pr.config.retryTimes + 1));
      assert pr.config == c.(retryTimes := c.retryTimes + 1) && timeout == t + EscalationStep;
      if timeout <= pr.config.maxTimeout && pr.config.retryTimes <= pr.config.maxRetryTimes {
        assert Escalates(c, t, outcome);
        assert Attempts(c, hint, b) == attempts + Attempts(pr.config, timeout, b);
        var innerHtml, innerErr, innerAttempts := PageSourceOn(pr, timeout, b);
        attempts := attempts + innerAttempts;
      } else {
        assert !Escalates(c, t, outcome);
        assert Attempts(c, hint, b) == attempts;
      }
    } else {
      assert !Escalates(c, t, outcome);
      assert Attempts(c, hint, b) == attempts;
    }
  }

  /**
   * A retry that succeeds is lost: with a 20-second reader whose first
   * attempt passes the deadline and whose second captures the page,
   * `PageSource` still returns no markup and the deadline error.
   */
  lemma RetryResultDiscarded()
    ensures var c := Config(20, 40, 1, 3);
      var b := Browser((r: int, t: int) => if r == 1 then Deadline else Captured("<html></html>"), (s: string) => true);
      var rs := Attempts(c, 20, b);
      && |rs| == 2
      && AttemptResult(rs[0].outcome) == ("", Some(DeadlineExceeded))
      && AttemptResult(rs[1].outcome) == ("<html></html>", None)
  {
    var c := Config(20, 40, 1, 3);
    var b := Browser((r: int, t: int) => if r == 1 then Deadline else Captured("<html></html>"), (s: string) => true);
    TrimSpaceKeepsTrimmed("<html></html>");
    assert Attempts(c.(retryTimes := 2), 30, b) == [AttemptRecord(2, 20, Captured("<html></html>"))];
  }

  /**
   * The escalation policy with the retry's result made authoritative: an
   * explicit bounded loop over the same attempts that returns what the last
   * attempt produced. It succeeds exactly when some attempt captured the page.
   */
  method PageSourceLoop(c: Config, timeout: int, b: Browser)
    returns (htmlSource: string, err: Option<FetchError>, attempts: seq<AttemptRecord>)
    ensures attempts == Attempts(c, timeout, b)
    ensures (htmlSource, err) == AttemptResult(attempts[|attempts| - 1].outcome)
    ensures err == None <==> exists i :: 0 <= i < |attempts| && attempts[i].outcome.Captured?
    ensures err == None ==> htmlSource == TrimSpace(attempts[|attempts| - 1].outcome.outerHtml)
  {
    var cfg := c;
    var hint := timeout;
    var done := false;
    attempts := [];
    htmlSource, err := "", None;
    while !done
      invariant cfg == c.(retryTimes := cfg.retryTimes)
      invariant !done ==> attempts + Attempts(cfg, hint, b) == Attempts(c, timeout, b)
      invariant done ==> attempts == Attempts(c, timeout, b)
      invariant done ==> (htmlSource, err) == AttemptResult(attempts[|attempts| - 1].outcome)
      decreases !done, cfg.maxRetryTimes - cfg.retryTimes
    {
      var t := ClampTimeout(hint, cfg.timeout);
      var outcome := b.attempt(cfg.retryTimes, t);
      ghost var rest := Attempts(cfg, hint, b);
      attempts := attempts + [AttemptRecord(cfg.retryTimes, t, outcome)];
      htmlSource, err := AttemptResult(outcome).0, AttemptResult(outcome).1;
      if Escalates(cfg, t, outcome) {
        cfg := cfg.(retryTimes := cfg.retryTimes + 1);
        hint := t + EscalationStep;
        assert rest == [rest[0]] + Attempts(cfg, hint, b);
      } else {
        done := true;
        assert rest == [rest[0]];
      }
    }
    LastAttemptDecides(c, timeout, b);
  }

  /**
   * Only the deadline is retried: every attempt but the last missed it, so
   * the last attempt's result succeeds exactly when some attempt captured
   * the page, and then holds that page trimmed.
   */
  lemma LastAttemptDecides(c: Config, hint: int, b: Browser)
    ensures var rs := Attempts(c, hint, b);
      && (forall i :: 0 <= i < |rs| - 1 ==> rs[i].outcome.Deadline?)
      && (AttemptResult(rs[|rs| - 1].outcome).1 == None <==> exists i :: 0 <= i < |rs| && rs[i].outcome.Captured?)
      && (AttemptResult(rs[|rs| - 1].outcome).1 == None ==>
            AttemptResult(rs[|rs| - 1].outcome).0 == TrimSpace(rs[|rs| - 1].outcome.outerHtml))
  {
    var rs := Attempts(c, hint, b);
    AttemptsShape(c, hint, b);
    forall i | 0 <= i < |rs| - 1 ensures rs[i].outcome.Deadline? {
      assert AttemptPlaced(c, rs, b, i);
    }
    if rs[|rs| - 1].outcome.Captured? {
      assert exists i :: 0 <= i < |rs| && rs[i].outcome.Captured?;
    }
  }

  /** The page reader object; `Logger` and `ChromeDP` are not part of this model. */
  class PageReader {
    var config: Config
    var url: string
    var htmlSource: string
    var doc: Option<Document>

    /** `NewPageReader(timeout, logger)`. */
    constructor (timeout: int)
      ensures config == Config(timeout, 2 * timeout, 1, 3)
      ensures url == "" && htmlSource == "" && doc == None
    {
      config := Config(timeout, timeout * 2, 1, 3);
      url := "";
      htmlSource := "";
      doc := None;
    }

    /** The copy a value receiver works on. */
    function Value(): ReaderValue
      reads this
    {
      ReaderValue(config, url, htmlSource, doc)
    }

    /** `SetMaxTryTimes`: a count below 1 is taken as 1; nothing else changes. */
    method SetMaxTryTimes(times: int) returns (self: PageReader)
      modifies this
      ensures self == this
      ensures config == old(config).(maxRetryTimes := if times > 0 then times else 1)
      ensures config.maxRetryTimes >= 1
      ensures url == old(url) && htmlSource == old(htmlSource) && doc == old(doc)
    {
      var times := times;
      if times <= 0 {
        times := 1;
      }
      config := config.(maxRetryTimes := times);
      self := this;
    }

    /** `SetUrl`: replaces the URL and nothing else. */
    method SetUrl(url: string) returns (self: PageReader)
      modifies this
      ensures self == this
      ensures this.url == url
      ensures config == old(config) && htmlSource == old(htmlSource) && doc == old(doc)
    {
      this.url := url;
      self := this;
    }

    /** `HtmlSource`: the markup stored on the reader. */
    function HtmlSource(): (h: string)
      reads this
      ensures h == htmlSource
    {
      htmlSource
    }

    /** `Headers`: the three fixed extra HTTP headers sent with every fetch. */
    function Headers(): (h: map<string, string>)
      ensures h.Keys == {"accept-encoding", "accept-language", "upgrade-insecure-requests"}
      ensures h["accept-encoding"] == "gzip, deflate, br"
      ensures h["accept-language"] == "zh-CN,zh;q=0.9"
      ensures h["upgrade-insecure-requests"] == "1"
    {
      map["accept-encoding" := "gzip, deflate, br",
          "accept-language" := "zh-CN,zh;q=0.9",
          "upgrade-insecure-requests" := "1"]
    }

    /**
     * `PageSource(timeout)`: a value receiver, so the work is done on a copy
     * and the reader itself is left as it was, whatever the attempts did.
     */
    method PageSource(timeout: int, b: Browser)
      returns (htmlSource: string, err: Option<FetchError>, attempts: seq<AttemptRecord>)
      ensures unchanged(this)
      ensures attempts == Attempts(config, timeout, b)
      ensures (htmlSource, err) == AttemptResult(attempts[0].outcome)
    {
      var copy := Value();
      htmlSource, err, attempts := PageSourceOn(copy, timeout, b);
    }

    /**
     * `Contains(s)` as written: it calls `strings.Contains` only when the
     * stored markup is empty, so it holds just for empty markup and empty `s`.
     */
    function Contains(s: string): (r: bool)
      reads this
      ensures r <==> htmlSource == "" && s == ""
    {
      if htmlSource == "" then ContainsText(htmlSource, s) else false
    }

    /** `Contains` with the test the other way round: `s` occurs in non-empty stored markup. */
    function ContainsFixed(s: string): (r: bool)
      reads this
      ensures r <==> htmlSource != "" && exists i :: OccursAt(htmlSource, s, i)
    {
      ContainsTextAt(htmlSource, s);
      htmlSource != "" && ContainsText(htmlSource, s)
    }
  }

  /**
   * A reader made by `NewPageReader` and then used only through `SetUrl`,
   * `SetMaxTryTimes` and `PageSource` never holds markup: the setters keep
   * `htmlSource` and `PageSource` fills only its copy. So `HtmlSource()` is
   * empty and `Contains(s)` holds exactly for the empty `s`.
   */
  method StoredMarkupStaysEmpty(timeout: int, url: string, times: int, hint: int, b: Browser, s: string)
    returns (html: string, contained: bool)
    ensures html == ""
    ensures contained <==> s == ""
  {
    var pr := new PageReader(timeout);
    var self := pr.SetUrl(url);
    self := pr.SetMaxTryTimes(times);
    var fetched, err, attempts := pr.PageSource(hint, b);
    html := pr.HtmlSource();
    contained := pr.Contains(s);
  }

  /** A reader holding a page never reports text of that page as contained. */
  lemma ContainsMissesStoredText(pr: PageReader)
    requires pr.htmlSource == "<p>hi</p>"
    ensures OccursAt(pr.htmlSource, "hi", 3)
    ensures !pr.Contains("hi")
    ensures pr.ContainsFixed("hi")
  {
    assert OccursAt(pr.htmlSource, "hi", 3);
  }
}
