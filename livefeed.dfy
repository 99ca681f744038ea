/** The news feed service: `POST /get_articles` asks the news API for a
    ticker's feed and walks it in order, scraping each article's page,
    reformatting its timestamp, recording it, skipping an article whose
    processing raises, and stopping at the first dated article older than
    the chosen interval's start. The clock, the news API and the page
    scraper are inputs. */
module LiveFeed {
  import opened Util
  import opened Json
  import opened Calendar

  // ---------------------------------------------------------------------
  // Interval start dates

  /** The day before `d`. */
  function PrevDay(d: Date): (p: Date)
    requires Valid(d) && Ordinal(d) > 1
    ensures Valid(p) && Ordinal(p) == Ordinal(d) - 1
  {
    if d.day > 1 then Date(d.year, d.month, d.day - 1)
    else if d.month > 1 then
      MonthStep(d.year, d.month - 1);
      Date(d.year, d.month - 1, DaysInMonth(d.year, d.month - 1))
    else
      LastDayOfYear(d.year - 1);
      YearStep(d.year - 1);
      Date(d.year - 1, 12, 31)
  }

  /** `d - timedelta(days=n)`. */
  function DaysBack(d: Date, n: nat): (p: Date)
    requires Valid(d) && Ordinal(d) > n
    ensures Valid(p) && Ordinal(p) == Ordinal(d) - n
    decreases n
  {
    if n == 0 then d else DaysBack(PrevDay(d), n - 1)
  }

  /** How many weeks back each interval of the table starts. */
  const Weeks: map<string, nat> := map["1d" := 0, "1w" := 1, "1m" := 4, "3m" := 12, "6m" := 24]

  lemma WeeksBound(name: string)
    requires name in Weeks
    ensures Weeks[name] <= 24
  {
  }

  /** The `intervals` table built at start-up from today's date. */
  function Intervals(today: Date): map<string, string>
    requires Valid(today) && Ordinal(today) > 7 * 24
  {
    map name | name in Weeks :: WeeksBound(name); Iso(DaysBack(today, 7 * Weeks[name]))
  }

  /** The table has the five intervals, each starting the given number of
      weeks before today. */
  lemma IntervalStarts(today: Date, name: string)
    requires Valid(today) && Ordinal(today) > 7 * 24
    ensures name in Intervals(today) <==> name in Weeks
    ensures name in Weeks ==>
      var start := DaysBack(today, 7 * Weeks[name]);
      && Intervals(today)[name] == Iso(start)
      && Ordinal(start) == Ordinal(today) - 7 * Weeks[name]
  {
  }

  /** An interval reaching further back starts strictly earlier, in string
      order as in calendar order. */
  lemma IntervalsOrdered(today: Date, longer: string, shorter: string)
    requires Valid(today) && Ordinal(today) > 7 * 24
    requires longer in Weeks && shorter in Weeks && Weeks[shorter] < Weeks[longer]
    ensures LexLess(Intervals(today)[longer], Intervals(today)[shorter])
  {
    WeeksBound(longer);
    EarlierIso(today, 7 * Weeks[shorter], 7 * Weeks[longer]);
  }

  /** Going back further gives an earlier ISO date string. */
  lemma EarlierIso(d: Date, m: nat, n: nat)
    requires Valid(d) && m < n < Ordinal(d)
    ensures LexLess(Iso(DaysBack(d, n)), Iso(DaysBack(d, m)))
  {
    OrdinalOrder(DaysBack(d, n), DaysBack(d, m));
    IsoOrder(DaysBack(d, n), DaysBack(d, m));
  }

  // ---------------------------------------------------------------------
  // Scraped text

  /** `str.isspace()` for one character. */
  predicate IsSpace(c: char) {
    var n := c as int;
    (9 <= n <= 13) || (28 <= n <= 32) || n == 0x85 || n == 0xA0 || n == 0x1680
    || (0x2000 <= n <= 0x200A) || n == 0x2028 || n == 0x2029 || n == 0x202F
    || n == 0x205F || n == 0x3000
  }

  /** The number of white-space characters `s` starts with. */
  function LeadingSpaces(s: string): (n: nat)
    ensures n <= |s|
    ensures forall k :: 0 <= k < n ==> IsSpace(s[k])
    ensures n == |s| || !IsSpace(s[n])
    decreases |s|
  {
    if s == [] || !IsSpace(s[0]) then 0
    else
      var m := LeadingSpaces(s[1..]);
      assert forall k :: 1 <= k < m + 1 ==> s[k] == s[1..][k - 1];
      m + 1
  }

  /** The number of white-space characters `s` ends with. */
  function TrailingSpaces(s: string): (n: nat)
    ensures n <= |s|
    ensures forall k :: |s| - n <= k < |s| ==> IsSpace(s[k])
    ensures n == |s| || !IsSpace(s[|s| - n - 1])
    decreases |s|
  {
    if s == [] || !IsSpace(s[|s| - 1]) then 0
    else
      var m := TrailingSpaces(s[..|s| - 1]);
      assert forall k :: 0 <= k < |s| - 1 ==> s[k] == s[..|s| - 1][k];
      m + 1
  }

  /** `s.lstrip()`: the suffix left after the leading white space. */
  function TrimStart(s: string): (r: string)
    ensures |r| <= |s| && forall k :: 0 <= k < |r| ==> r[k] == s[|s| - |r| + k]
    ensures forall k :: 0 <= k < |s| - |r| ==> IsSpace(s[k])
    ensures r == [] || !IsSpace(r[0])
  {
    s[LeadingSpaces(s)..]
  }

  /** `s.rstrip()`: the prefix left before the trailing white space. */
  function TrimEnd(s: string): (r: string)
    ensures |r| <= |s| && forall k :: 0 <= k < |r| ==> r[k] == s[k]
    ensures forall k :: |r| <= k < |s| ==> IsSpace(s[k])
    ensures r == [] || !IsSpace(r[|r| - 1])
  {
    s[..|s| - TrailingSpaces(s)]
  }

  /** `s.strip()`. */
  function Strip(s: string): (r: string)
    ensures r == [] || (!IsSpace(r[0]) && !IsSpace(r[|r| - 1]))
  {
    var t := TrimStart(s);
    var r := TrimEnd(t);
    assert r != [] ==> r[0] == t[0];
    r
  }

  /** Stripping twice strips nothing more. */
  lemma StripIdempotent(s: string)
    ensures Strip(Strip(s)) == Strip(s)
  {
    var r := Strip(s);
    if r != [] {
      assert TrimStart(r) == r;
      assert TrimEnd(r) == r;
    }
  }

  /** The text gathered from a page's paragraphs: each stripped, each
      followed by a newline, so it is empty exactly when there is no
      paragraph. */
  function PageText(paragraphs: seq<string>): (r: string)
    ensures |r| == 0 <==> paragraphs == []
    decreases |paragraphs|
  {
    if paragraphs == [] then ""
    else
      var n := |paragraphs| - 1;
      PageText(paragraphs[..n]) + Strip(paragraphs[n]) + "\n"
  }

  lemma PageTextStep(ps: seq<string>, i: nat)
    requires i < |ps|
    ensures PageText(ps[..i + 1]) == PageText(ps[..i]) + Strip(ps[i]) + "\n"
  {
    assert ps[..i + 1][..i] == ps[..i];
  }

  /** `article_text = ''; for paragraph in ...: article_text += paragraph.text.strip() + '\n'`. */
  method JoinParagraphs(paragraphs: seq<string>) returns (text: string)
    ensures text == PageText(paragraphs)
  {
    text := "";
    var i := 0;
    while i < |paragraphs|
      invariant 0 <= i <= |paragraphs|
      invariant text == PageText(paragraphs[..i])
    {
      PageTextStep(paragraphs, i);
      text := text + Strip(paragraphs[i]) + "\n";
      i := i + 1;
    }
    assert paragraphs[..i] == paragraphs;
  }

  // ---------------------------------------------------------------------
  // One article

  /** Scraping a page: the texts of its `<p>` elements, or None when the
      request raises. */
  type Fetch = Json -> Option<seq<string>>

  /** What the `time_published` test makes of an article. */
  datatype Stamp =
    | Undated                 // missing, empty or "NA": recorded as "NA"
    | Stamped(prefix: string) // the first ten characters of the stamp
    | Unsliceable             // a non-string stamp: slicing or parsing it raises

  function PublishedStamp(fields: map<string, Json>): Stamp {
    if "time_published" in fields && Truthy(fields["time_published"]) then
      match fields["time_published"]
      case JStr(s) =>
        var p := if |s| <= 10 then s else s[..10];
        if p == "NA" then Undated else Stamped(p)
      case _ => Unsliceable
    else Undated
  }

  /** One row of the response. */
  datatype Record = Record(datePublished: string, stock: Json, title: Json, url: Json, summary: Json, text: string)

  /** What the loop body does with one article. */
  datatype Step = Stop | Skip | Keep(record: Record)

  /** The record the body appends once the date is known, or a skip while
      `article_text` is still unbound. */
  function Recorded(date: string, fields: map<string, Json>, url: Json, ticker: Json, text: Option<string>): (step: Step)
    ensures step.Keep? <==> text.Some?
    ensures step.Keep? ==> step.record.datePublished == date && step.record.url == url && step.record.text == text.value
  {
    if text.None? then Skip
    else Keep(Record(date, ticker, Get(fields, "title", JStr("")), url, Get(fields, "summary", JStr("")), text.value))
  }

  /** The rest of the loop body once the page, if any, is read into `text`:
      an undated article is recorded with date "NA"; a stamped one is
      reformatted as `YYYY-MM-DD`, stops the loop when before the start
      date and is recorded otherwise; a stamp that does not parse, or a
      missing start date to compare with, raises and skips the article. */
  function Outcome(fields: map<string, Json>, url: Json, ticker: Json, start: Option<string>, text: Option<string>)
    : Step
  {
    match PublishedStamp(fields)
    case Unsliceable => Skip
    case Undated => Recorded("NA", fields, url, ticker, text)
    case Stamped(p) =>
      match ParseCompact(p)
      case None => Skip                                  // `strptime` raises
      case Some(d) =>
        if start.None? then Skip                         // comparing with None raises
        else if LexLess(Iso(d), start.value) then Stop
        else Recorded(Iso(d), fields, url, ticker, text)
  }

  /** The loop body on one article, given the ticker, the start date (None
      for an interval not in the table), and the text left in `article_text`
      by earlier articles (None while it is unbound). Returns the step and
      the text the body leaves behind: an article with a URL replaces it by
      its own page's text, even one that is then skipped. */
  function Process(article: Json, ticker: Json, start: Option<string>, text: Option<string>, fetch: Fetch)
    : (Step, Option<string>)
  {
    if !article.JObject? then (Skip, text)    // `article.get` raises
    else
      var url := Get(article.fields, "url", JStr(""));
      if Truthy(url) && fetch(url).None? then (Skip, text)
      else
        var text' := if Truthy(url) then Some(PageText(fetch(url).value)) else text;
        (Outcome(article.fields, url, ticker, start, text'), text')
  }

  /** An article stops the loop when it is an object whose page (if it has a
      URL) could be fetched, stamped with a real date that is before the
      start date. */
  predicate Stops(article: Json, start: Option<string>, fetch: Fetch) {
    && article.JObject?
    && (var url := Get(article.fields, "url", JStr(""));
        !(Truthy(url) && fetch(url).None?))
    && PublishedStamp(article.fields).Stamped?
    && ParseCompact(PublishedStamp(article.fields).prefix).Some?
    && start.Some?
    && LexLess(Iso(ParseCompact(PublishedStamp(article.fields).prefix).value), start.value)
  }

  /** After the page is read, the body stops exactly on a parseable stamp
      whose date is before a given start date. */
  lemma OutcomeStops(fields: map<string, Json>, url: Json, ticker: Json, start: Option<string>, text: Option<string>)
    ensures var stamp := PublishedStamp(fields);
      Outcome(fields, url, ticker, start, text) == Stop <==>
        && stamp.Stamped?
        && ParseCompact(stamp.prefix).Some?
        && start.Some?
        && LexLess(Iso(ParseCompact(stamp.prefix).value), start.value)
  {
  }

  /** Whether an article stops the loop does not depend on the ticker or on
      the text earlier articles left behind. */
  lemma StopsExactly(article: Json, ticker: Json, start: Option<string>, text: Option<string>, fetch: Fetch)
    ensures Process(article, ticker, start, text, fetch).0 == Stop <==> Stops(article, start, fetch)
  {
    if article.JObject? {
      var url := Get(article.fields, "url", JStr(""));
      if !(Truthy(url) && fetch(url).None?) {
        var text' := if Truthy(url) then Some(PageText(fetch(url).value)) else text;
        assert Process(article, ticker, start, text, fetch).0 == Outcome(article.fields, url, ticker, start, text');
        OutcomeStops(article.fields, url, ticker, start, text');
      }
    }
  }

  /** An undated article never stops the loop, and is recorded with date
      "NA" whenever there is page text to record. */
  lemma UndatedKept(article: Json, ticker: Json, start: Option<string>, text: Option<string>, fetch: Fetch)
    requires article.JObject? && PublishedStamp(article.fields) == Undated
    ensures !Stops(article, start, fetch)
    ensures Process(article, ticker, start, text, fetch).1.Some? &&
            !(Truthy(Get(article.fields, "url", JStr(""))) && fetch(Get(article.fields, "url", JStr(""))).None?) ==>
              Process(article, ticker, start, text, fetch).0.Keep? &&
              Process(article, ticker, start, text, fetch).0.record.datePublished == "NA"
  {
  }

  /** A kept article stamped `YYYYMMDDTH...` is recorded with the date
      `YYYY-MM-DD` taken from the same digits, on or after the start date. */
  lemma KeptDateReformatted(article: Json, ticker: Json, start: Option<string>, text: Option<string>, fetch: Fetch)
    requires Process(article, ticker, start, text, fetch).0.Keep?
    requires PublishedStamp(article.fields).Stamped?
    ensures var p := PublishedStamp(article.fields).prefix;
      var r := Process(article, ticker, start, text, fetch).0.record;
      && r.datePublished == p[..4] + "-" + p[4..6] + "-" + p[6..8]
      && start.Some? && !LexLess(r.datePublished, start.value)
  {
    ParseCompactReformats(PublishedStamp(article.fields).prefix);
  }

  /** An article that is not an object, or whose page cannot be fetched,
      leaves everything as it was. */
  predicate Inert(article: Json, fetch: Fetch) {
    !article.JObject?
    || (var url := Get(article.fields, "url", JStr(""));
        Truthy(url) && fetch(url).None?)
  }

  // ---------------------------------------------------------------------
  // The loop

  /** The records the loop collects from `articles`, starting with the
      text `text` in `article_text`. */
  function Collect(articles: seq<Json>, ticker: Json, start: Option<string>, text: Option<string>, fetch: Fetch)
    : seq<Record>
    decreases |articles|
  {
    if articles == [] then []
    else
      var (step, text') := Process(articles[0], ticker, start, text, fetch);
      match step
      case Stop => []
      case Skip => Collect(articles[1..], ticker, start, text', fetch)
      case Keep(r) => [r] + Collect(articles[1..], ticker, start, text', fetch)
  }

  /** The fold from position `i` on: the step the body takes there, then the
      rest of the feed. */
  lemma CollectStep(articles: seq<Json>, i: nat, ticker: Json, start: Option<string>, text: Option<string>, fetch: Fetch)
    requires i < |articles|
    ensures var (step, text') := Process(articles[i], ticker, start, text, fetch);
      var rest := Collect(articles[i + 1..], ticker, start, text', fetch);
      Collect(articles[i..], ticker, start, text, fetch) ==
        match step
        case Stop => []
        case Skip => rest
        case Keep(r) => [r] + rest
  {
    assert articles[i..][0] == articles[i] && articles[i..][1..] == articles[i + 1..];
  }

  /** Every record is of the requested ticker. */
  lemma {:induction false} CollectStock(articles: seq<Json>, ticker: Json, start: Option<string>, text: Option<string>, fetch: Fetch)
    ensures forall r :: r in Collect(articles, ticker, start, text, fetch) ==> r.stock == ticker
    decreases |articles|
  {
    if articles != [] {
      var (step, text') := Process(articles[0], ticker, start, text, fetch);
      CollectStock(articles[1..], ticker, start, text', fetch);
    }
  }

  /** Nothing after a stopping article appears in the result. */
  lemma {:induction false} NothingAfterStop(xs: seq<Json>, a: Json, ys: seq<Json>, ticker: Json, start: Option<string>,
                                            text: Option<string>, fetch: Fetch)
    requires Stops(a, start, fetch)
    ensures Collect(xs + [a] + ys, ticker, start, text, fetch) == Collect(xs, ticker, start, text, fetch)
    decreases |xs|
  {
    var all := xs + [a] + ys;
    if xs == [] {
      assert all[0] == a;
      StopsExactly(a, ticker, start, text, fetch);
    } else {
      assert all[0] == xs[0] && all[1..] == xs[1..] + [a] + ys;
      var (step, text') := Process(xs[0], ticker, start, text, fetch);
      NothingAfterStop(xs[1..], a, ys, ticker, start, text', fetch);
    }
  }

  /** An article that raises before touching `article_text` is skipped and
      changes nothing else: the result is as if it were not in the feed. */
  lemma {:induction false} InertSkipped(xs: seq<Json>, a: Json, ys: seq<Json>, ticker: Json, start: Option<string>,
                                        text: Option<string>, fetch: Fetch)
    requires Inert(a, fetch)
    ensures Collect(xs + [a] + ys, ticker, start, text, fetch) == Collect(xs + ys, ticker, start, text, fetch)
    decreases |xs|
  {
    var all := xs + [a] + ys;
    if xs == [] {
      assert all[0] == a && all[1..] == ys && xs + ys == ys;
    } else {
      assert all[0] == xs[0] && all[1..] == xs[1..] + [a] + ys;
      assert (xs + ys)[0] == xs[0] && (xs + ys)[1..] == xs[1..] + ys;
      var (step, text') := Process(xs[0], ticker, start, text, fetch);
      InertSkipped(xs[1..], a, ys, ticker, start, text', fetch);
    }
  }

  /** `idx` places each record at an article of the feed: strictly
      increasing positions, each record carrying its article's fields, and
      no article up to a recorded one stopping the loop. */
  predicate Origins(idx: seq<nat>, res: seq<Record>, articles: seq<Json>, start: Option<string>, fetch: Fetch) {
    Placed(idx, res, articles) && BeforeStop(idx, articles, start, fetch)
  }

  predicate Placed(idx: seq<nat>, res: seq<Record>, articles: seq<Json>) {
    && |idx| == |res|
    && (forall k :: 0 <= k < |idx| ==> idx[k] < |articles|)
    && (forall k, l :: 0 <= k < l < |idx| ==> idx[k] < idx[l])
    && (forall k :: 0 <= k < |idx| ==> idx[k] < |articles| && FromArticle(res[k], articles[idx[k]]))
  }

  predicate BeforeStop(idx: seq<nat>, articles: seq<Json>, start: Option<string>, fetch: Fetch) {
    forall k, j :: 0 <= k < |idx| && 0 <= j <= idx[k] && j < |articles| ==> !Stops(articles[j], start, fetch)
  }

  /** The places of the records found after the first article, counted in
      the whole feed. */
  lemma ShiftOrigins(idx: seq<nat>, res: seq<Record>, articles: seq<Json>, start: Option<string>, fetch: Fetch)
    returns (shifted: seq<nat>)
    requires articles != [] && !Stops(articles[0], start, fetch)
    requires Origins(idx, res, articles[1..], start, fetch)
    ensures Origins(shifted, res, articles, start, fetch)
    ensures forall k :: 0 <= k < |shifted| ==> shifted[k] > 0
  {
    shifted := seq(|idx|, k requires 0 <= k < |idx| => idx[k] + 1);
    assert forall k :: 0 <= k < |idx| ==> articles[shifted[k]] == articles[1..][idx[k]];
    forall k, j | 0 <= k < |idx| && 0 <= j <= shifted[k] && j < |articles|
      ensures !Stops(articles[j], start, fetch)
    {
      if j > 0 {
        assert articles[j] == articles[1..][j - 1];
      }
    }
  }

  /** A record of the first article, in front of records placed after it. */
  lemma ConsOrigin(r: Record, idx: seq<nat>, res: seq<Record>, articles: seq<Json>, start: Option<string>, fetch: Fetch)
    returns (idx': seq<nat>)
    requires articles != [] && !Stops(articles[0], start, fetch) && FromArticle(r, articles[0])
    requires Origins(idx, res, articles, start, fetch)
    requires forall k :: 0 <= k < |idx| ==> idx[k] > 0
    ensures Origins(idx', [r] + res, articles, start, fetch)
  {
    idx' := [0] + idx;
    ConsPlaced(r, idx, res, articles);
    forall k, j | 0 <= k < |idx'| && 0 <= j <= idx'[k] && j < |articles|
      ensures !Stops(articles[j], start, fetch)
    {
      if k > 0 {
        assert idx'[k] == idx[k - 1];
      }
    }
  }

  lemma ConsPlaced(r: Record, idx: seq<nat>, res: seq<Record>, articles: seq<Json>)
    requires articles != [] && FromArticle(r, articles[0])
    requires Placed(idx, res, articles)
    requires forall k :: 0 <= k < |idx| ==> idx[k] > 0
    ensures Placed([0] + idx, [r] + res, articles)
  {
    var idx', res' := [0] + idx, [r] + res;
    forall k | 0 <= k < |idx'|
      ensures idx'[k] < |articles| && FromArticle(res'[k], articles[idx'[k]])
    {
      if k > 0 {
        assert idx'[k] == idx[k - 1] && res'[k] == res[k - 1];
      }
    }
    forall k, l | 0 <= k < l < |idx'|
      ensures idx'[k] < idx'[l]
    {
      assert idx'[l] == idx[l - 1];
      if k > 0 {
        assert idx'[k] == idx[k - 1];
      }
    }
  }

  /** The result lists articles of the feed in feed order, each record
      carrying its article's title, URL and summary, and every article up to
      the last one recorded did not stop the loop. */
  lemma {:induction false} CollectOrigins(articles: seq<Json>, ticker: Json, start: Option<string>,
                                          text: Option<string>, fetch: Fetch)
    returns (idx: seq<nat>)
    ensures Origins(idx, Collect(articles, ticker, start, text, fetch), articles, start, fetch)
    decreases |articles|
  {
    if articles == [] {
      idx := [];
    } else {
      var (step, text') := Process(articles[0], ticker, start, text, fetch);
      StopsExactly(articles[0], ticker, start, text, fetch);
      if step.Stop? {
        idx := [];
      } else {
        var rest := CollectOrigins(articles[1..], ticker, start, text', fetch);
        var tail := Collect(articles[1..], ticker, start, text', fetch);
        var shifted := ShiftOrigins(rest, tail, articles, start, fetch);
        if step.Skip? {
          idx := shifted;
        } else {
          assert FromArticle(step.record, articles[0]);
          idx := ConsOrigin(step.record, shifted, tail, articles, start, fetch);
        }
      }
    }
  }

  /** A record carries its article's title, URL and summary, with the
      empty string for the missing ones. */
  predicate FromArticle(r: Record, article: Json) {
    && article.JObject?
    && r.title == Get(article.fields, "title", JStr(""))
    && r.url == Get(article.fields, "url", JStr(""))
    && r.summary == Get(article.fields, "summary", JStr(""))
  }

  /** Every dated record is on or after the start date; with an interval not
      in the table (no start date) only undated records are kept and no
      article stops the loop. */
  lemma {:induction false} DatesRespectStart(articles: seq<Json>, ticker: Json, start: Option<string>,
                                             text: Option<string>, fetch: Fetch)
    ensures forall r :: r in Collect(articles, ticker, start, text, fetch) && r.datePublished != "NA" ==>
              start.Some? && !LexLess(r.datePublished, start.value)
    ensures start.None? ==> forall j :: 0 <= j < |articles| ==> !Stops(articles[j], start, fetch)
    decreases |articles|
  {
    if articles != [] {
      var (step, text') := Process(articles[0], ticker, start, text, fetch);
      DatesRespectStart(articles[1..], ticker, start, text', fetch);
      assert forall j :: 1 <= j < |articles| ==> articles[j] == articles[1..][j - 1];
    }
  }

  /** With an earlier start date (a longer interval) the loop collects the
      same records and possibly more after them: the shorter interval's
      result is a prefix of the longer one's. */
  lemma {:induction false} EarlierStartExtends(articles: seq<Json>, ticker: Json, s1: string, s2: string,
                                               text: Option<string>, fetch: Fetch)
    requires s2 == s1 || LexLess(s2, s1)
    ensures var short := Collect(articles, ticker, Some(s1), text, fetch);
      var long := Collect(articles, ticker, Some(s2), text, fetch);
      |short| <= |long| && long[..|short|] == short
    decreases |articles|
  {
    if articles != [] {
      var a := articles[0];
      var (step1, t1) := Process(a, ticker, Some(s1), text, fetch);
      var (step2, t2) := Process(a, ticker, Some(s2), text, fetch);
      assert t1 == t2;
      if !step1.Stop? {
        StopsExactly(a, ticker, Some(s1), text, fetch);
        StopsExactly(a, ticker, Some(s2), text, fetch);
        if Stops(a, Some(s2), fetch) {
          var d := Iso(ParseCompact(PublishedStamp(a.fields).prefix).value);
          if LexLess(s2, s1) {
            LexLessTransitive(d, s2, s1);
          }
          assert false;
        }
        assert step1 == step2;
        EarlierStartExtends(articles[1..], ticker, s1, s2, t1, fetch);
      }
    }
  }

  // ---------------------------------------------------------------------
  // The handler

  /** What the news API call gives back: the decoded JSON object, or the
      message of the exception the request or the decoding raised. */
  datatype ApiReply = ApiFailure(message: string) | ApiBody(fields: map<string, Json>)

  /** The news API, queried with the ticker. */
  type NewsApi = Json -> ApiReply

  datatype FeedResponse =
    | Failure(error: string)          // {"success": False, "error": ...}
    | Success(articles: seq<Record>)  // {"success": True, "articles": [...]}
    | NoResponse                      // the view returns None: Flask answers 500

  /** What `for article in feed` iterates over, or None when the feed is not
      iterable. Iterating a string gives one-character strings; iterating an
      object gives its keys, which are strings too: both kinds of article are
      skipped (`NonObjectSkipped`), so the object's keys are not listed. */
  function FeedItems(feed: Json): Option<seq<Json>> {
    match feed
    case JArray(items) => Some(items)
    case JStr(s) => Some(seq(|s|, i requires 0 <= i < |s| => JStr([s[i]])))
    case JObject(_) => Some([])
    case _ => None
  }

  /** An article that is not an object is skipped and leaves the text as it was. */
  lemma NonObjectSkipped(article: Json, ticker: Json, start: Option<string>, text: Option<string>, fetch: Fetch)
    requires !article.JObject?
    ensures Process(article, ticker, start, text, fetch) == (Skip, text)
  {
  }

  function NotIterable(v: Json): string {
    "'" + TypeName(v) + "' object is not iterable"
  }

  /** `get_articles` on a request body. */
  function GetArticlesSpec(request: Json, intervals: map<string, string>, api: NewsApi, fetch: Fetch): FeedResponse {
    if !request.JObject? then Failure(NoGetMessage(request))
    else
      var ticker := Get(request.fields, "ticker", JNull);
      var selected := Get(request.fields, "selected_interval", JNull);
      if !Hashable(selected) then Failure(UnhashableMessage(selected))
      else
        var start := if selected.JStr? && selected.s in intervals then Some(intervals[selected.s]) else None;
        match api(ticker)
        case ApiFailure(m) => Failure(m)
        case ApiBody(body) =>
          if "feed" !in body then NoResponse
          else
            match FeedItems(body["feed"])
            case None => Failure(NotIterable(body["feed"]))
            case Some(items) => Success(Collect(items, ticker, start, None, fetch))
  }

  /** The loop body, statement by statement. */
  method ProcessArticle(article: Json, ticker: Json, start: Option<string>, text: Option<string>, fetch: Fetch)
    returns (step: Step, text': Option<string>)
    ensures (step, text') == Process(article, ticker, start, text, fetch)
  {
    text' := text;
    if !article.JObject? {
      return Skip, text';
    }
    var url := Get(article.fields, "url", JStr(""));
    if Truthy(url) {
      var page := fetch(url);
      if page.None? {
        return Skip, text';
      }
      var joined := JoinParagraphs(page.value);
      text' := Some(joined);
    }
    step := RecordArticle(article.fields, url, ticker, start, text');
  }

  /** The loop body from the `time_published` test on. */
  method RecordArticle(fields: map<string, Json>, url: Json, ticker: Json, start: Option<string>, text: Option<string>)
    returns (step: Step)
    ensures step == Outcome(fields, url, ticker, start, text)
  {
    ghost var outcome := Outcome(fields, url, ticker, start, text);
    var formatted: string;
    match PublishedStamp(fields) {
      case Unsliceable =>
        return Skip;
      case Undated =>
        formatted := "NA";
      case Stamped(p) =>
        var parsed := ParseCompact(p);
        if parsed.None? || start.None? {
          return Skip;
        }
        formatted := Iso(parsed.value);
        if LexLess(formatted, start.value) {
          return Stop;
        }
    }
    assert outcome == Recorded(formatted, fields, url, ticker, text);
    if text.None? {
      return Skip;
    }
    var record := Record(formatted, ticker, Get(fields, "title", JStr("")), url,
                         Get(fields, "summary", JStr("")), text.value);
    assert outcome == Keep(record);
    step := Keep(record);
  }

  /** The handler, with the loop over the feed that appends to `stock_data`. */
  method GetArticles(request: Json, intervals: map<string, string>, api: NewsApi, fetch: Fetch)
    returns (response: FeedResponse)
    ensures response == GetArticlesSpec(request, intervals, api, fetch)
  {
    if !request.JObject? {
      return Failure(NoGetMessage(request));
    }
    var ticker := Get(request.fields, "ticker", JNull);
    var selected := Get(request.fields, "selected_interval", JNull);
    if !Hashable(selected) {
      return Failure(UnhashableMessage(selected));
    }
    var start := if selected.JStr? && selected.s in intervals then Some(intervals[selected.s]) else None;
    var reply := api(ticker);
    if reply.ApiFailure? {
      return Failure(reply.message);
    }
    if "feed" !in reply.fields {
      return NoResponse;
    }
    var feed := reply.fields["feed"];
    var items := FeedItems(feed);
    if items.None? {
      return Failure(NotIterable(feed));
    }
    var articles := items.value;
    var stockData: seq<Record> := [];
    var text: Option<string> := None;
    var i := 0;
    ghost var goal := Collect(articles, ticker, start, None, fetch);
    assert articles[0..] == articles;
    while i < |articles|
      invariant 0 <= i <= |articles|
      invariant stockData + Collect(articles[i..], ticker, start, text, fetch) == goal
    {
      var step, text' := ProcessArticle(articles[i], ticker, start, text, fetch);
      CollectStep(articles, i, ticker, start, text, fetch);
      if step.Stop? {
        assert stockData + [] == stockData;
        break;
      }
      if step.Keep? {
        stockData := stockData + [step.record];
      }
      text := text';
      i := i + 1;
    }
    if i == |articles| {
      assert articles[i..] == [] && stockData + [] == stockData;
    }
    response := Success(stockData);
  }
}
