/** Orchestrator `is_threat` (pura/modules/threat_intel.py, lines 196-254).
    Plain feeds are tried in list order, then CSV feeds; each fetched,
    non-empty feed is matched host by host, and the first host that matches
    is reported for that feed before moving on. The scan stops early once
    there are as many reports as hosts. The HTTP fetch is a parameter. */
module ThreatIntel {

  import opened Wrappers
  import opened Text
  import opened Indicators
  import opened PlainFeed
  import opened CsvFeed
  import opened Matcher

  /** `{'host', 'found', 'confidence', 'feed_url'}`, confidence in tenths. */
  datatype Report = Report(host: string, found: bool, tenths: int, feedUrl: string)

  /** A configured feed, tagged with its format. */
  datatype Source = Plain(url: string) | Csv(url: string)

  /** The feed URLs of `FEEDS` (lines 15-26). */
  const IpsumFeed := "https://raw.githubusercontent.com/stamparm/ipsum/master/ipsum.txt"
  const CinsFeed := "https://cinsscore.com/list/ci-badguys.txt"
  const OpenPhishFeed := "https://openphish.com/feed.txt"
  const MdlFeed := "https://panwdbl.appspot.com/lists/mdl.txt"
  const CybercrimeFeed := "https://cybercrime-tracker.net/all.php"
  const PhishTankFeed := "https://data.phishtank.com/data/online-valid.csv"

  /** `FEEDS['plain']` as written: no comma follows the Malware Domain List
      URL, so Python joins it with the next literal into one string. */
  const PlainFeedsAsWritten: seq<string> := [IpsumFeed, CinsFeed, OpenPhishFeed, MdlFeed + CybercrimeFeed]

  /** `FEEDS['plain']` as its comments list it: five feeds. */
  const PlainFeeds: seq<string> := [IpsumFeed, CinsFeed, OpenPhishFeed, MdlFeed, CybercrimeFeed]

  /** `FEEDS['csv']`. */
  const CsvFeeds: seq<string> := [PhishTankFeed]

  /** `__fetch_feed`: the lines of the document, or `None` on an HTTP error or
      an empty body. */
  type Fetch = string -> Option<seq<string>>

  /** The order in which the feeds are tried: every plain feed, then every
      CSV feed. */
  function Sources(plain: seq<string>, csv: seq<string>): (r: seq<Source>)
    ensures |r| == |plain| + |csv|
    ensures forall i :: 0 <= i < |plain| ==> r[i] == Plain(plain[i])
    ensures forall i :: 0 <= i < |csv| ==> r[|plain| + i] == Csv(csv[i])
    decreases |plain| + |csv|
  {
    if plain != [] then [Plain(plain[0])] + Sources(plain[1..], csv)
    else if csv != [] then [Csv(csv[0])] + Sources([], csv[1..])
    else []
  }

  /** The host, stripped, draws no match from the feed. */
  predicate Misses(env: Env, host: string, feed: seq<string>) {
    IsInFeed(env, Strip(host), feed) == Ok(Miss)
  }

  /** `rep` is what the loop appends for this host and feed. */
  predicate ReportFor(env: Env, host: string, feed: seq<string>, url: string, rep: Report) {
    var v := IsInFeed(env, Strip(host), feed);
    v.Ok? && v.value.found && rep == Report(Strip(host), true, v.value.tenths, url)
  }

  /** The inner loop with its `break` (lines 227-233): the report for the
      first host, in list order, that the feed matches. */
  function FirstHit(env: Env, hosts: seq<string>, feed: seq<string>, url: string): (r: Result<Option<Report>>)
    ensures r.Ok? && r.value.Some? ==>
              r.value.value.found && r.value.value.feedUrl == url && r.value.value.host in StrippedHosts(hosts)
  {
    if hosts == [] then Ok(None)
    else
      var host := Strip(hosts[0]);
      match IsInFeed(env, host, feed)
      case Raised(e) => Raised(e)
      case Ok(v) =>
        if v.found then Ok(Some(Report(host, true, v.tenths, url)))
        else FirstHit(env, hosts[1..], feed, url)
  }

  /** The host loop raises exactly when there is a host and the feed cannot
      be stripped: the strip happens on the first call, whatever the host. */
  lemma {:induction false} FirstHitRaises(env: Env, hosts: seq<string>, feed: seq<string>, url: string)
    ensures FirstHit(env, hosts, feed, url).Raised? <==> hosts != [] && Stripped(env, feed).Raised?
  {
    if hosts != [] && !IsInFeed(env, Strip(hosts[0]), feed).Raised? && !IsInFeed(env, Strip(hosts[0]), feed).value.found {
      FirstHitRaises(env, hosts[1..], feed, url);
    }
  }

  /** Nothing is reported for a feed exactly when every host misses it. */
  lemma {:induction false} FirstHitNone(env: Env, hosts: seq<string>, feed: seq<string>, url: string)
    ensures FirstHit(env, hosts, feed, url) == Ok(None) <==>
              forall i :: 0 <= i < |hosts| ==> Misses(env, hosts[i], feed)
  {
    if hosts != [] {
      var rest := hosts[1..];
      var v := IsInFeed(env, Strip(hosts[0]), feed);
      FirstHitNone(env, rest, feed, url);
      if Misses(env, hosts[0], feed) {
        assert FirstHit(env, hosts, feed, url) == FirstHit(env, rest, feed, url);
        forall i | 0 <= i < |hosts| && (forall k :: 0 <= k < |rest| ==> Misses(env, rest[k], feed))
          ensures Misses(env, hosts[i], feed)
        {
          if i > 0 { assert hosts[i] == rest[i - 1]; }
        }
        forall k | 0 <= k < |rest| && (forall i :: 0 <= i < |hosts| ==> Misses(env, hosts[i], feed))
          ensures Misses(env, rest[k], feed)
        {
          assert rest[k] == hosts[k + 1];
        }
      } else {
        assert v.Raised? || v.value.found;
        assert FirstHit(env, hosts, feed, url) != Ok(None);
      }
    }
  }

  /** A reported host is the first, in list order, that the feed matches;
      the report carries its stripped form and the matcher's confidence. */
  lemma {:induction false} FirstHitIsFirst(env: Env, hosts: seq<string>, feed: seq<string>, url: string)
    requires FirstHit(env, hosts, feed, url).Ok? && FirstHit(env, hosts, feed, url).value.Some?
    ensures exists j :: 0 <= j < |hosts|
              && ReportFor(env, hosts[j], feed, url, FirstHit(env, hosts, feed, url).value.value)
              && forall i :: 0 <= i < j ==> Misses(env, hosts[i], feed)
  {
    var rep := FirstHit(env, hosts, feed, url).value.value;
    var v := IsInFeed(env, Strip(hosts[0]), feed);
    if v.value.found {
      assert ReportFor(env, hosts[0], feed, url, rep);
    } else {
      FirstHitIsFirst(env, hosts[1..], feed, url);
      var j :| 0 <= j < |hosts| - 1
        && ReportFor(env, hosts[1..][j], feed, url, rep)
        && forall i :: 0 <= i < j ==> Misses(env, hosts[1..][i], feed);
      assert ReportFor(env, hosts[j + 1], feed, url, rep);
      assert Misses(env, hosts[0], feed);
      forall i | 0 <= i < j + 1
        ensures Misses(env, hosts[i], feed)
      {
        if i > 0 { assert hosts[i] == hosts[1..][i - 1]; }
      }
    }
  }

  /** The list the matcher sees for a source, or `None` when the source is
      skipped: the fetch failed or gave nothing, or (CSV) no indicator was
      extracted. */
  function FeedOf(env: Env, fetch: Fetch, src: Source): Option<seq<string>> {
    match fetch(src.url)
    case None => None
    case Some(lines) =>
      if lines == [] then None
      else
        match src
        case Plain(_) => Some(lines)
        case Csv(_) =>
          var indicators := CsvIndicators(env, lines);
          if indicators == [] then None else Some(indicators)
  }

  /** What one feed adds: the first matching host, if any. */
  function SourceStep(env: Env, fetch: Fetch, hosts: seq<string>, src: Source): Result<Option<Report>> {
    match FeedOf(env, fetch, src)
    case None => Ok(None)
    case Some(feed) => FirstHit(env, hosts, feed, src.url)
  }

  /** The scan over the remaining feeds, given the reports so far. */
  function Scan(env: Env, fetch: Fetch, hosts: seq<string>, sources: seq<Source>, acc: seq<Report>): (r: Result<seq<Report>>)
    ensures r.Ok? ==> |acc| <= |r.value| <= |acc| + |sources|
    ensures r.Ok? ==> acc <= r.value
    decreases |sources|
  {
    if sources == [] || |acc| == |hosts| then Ok(acc)
    else
      match SourceStep(env, fetch, hosts, sources[0])
      case Raised(e) => Raised(e)
      case Ok(None) => Scan(env, fetch, hosts, sources[1..], acc)
      case Ok(Some(rep)) => Scan(env, fetch, hosts, sources[1..], acc + [rep])
  }

  /** The host loop shared by both feed loops of `is_threat`. */
  method FirstMatchingHost(env: Env, hosts: seq<string>, feed: seq<string>, feedUrl: string)
    returns (r: Result<Option<Report>>)
    ensures r == FirstHit(env, hosts, feed, feedUrl)
  {
    var k := 0;
    while k < |hosts|
      invariant 0 <= k <= |hosts|
      invariant FirstHit(env, hosts[k..], feed, feedUrl) == FirstHit(env, hosts, feed, feedUrl)
    {
      var host := Strip(hosts[k]);
      var verdict := IsInFeed(env, host, feed);
      if verdict.Raised? {
        return Raised(verdict.error);
      }
      if verdict.value.found {
        return Ok(Some(Report(host, verdict.value.found, verdict.value.tenths, feedUrl)));
      }
      assert hosts[k..][1..] == hosts[k + 1..];
      k := k + 1;
    }
    return Ok(None);
  }

  /** The body of the plain-feed loop (lines 224-233): fetch the feed and,
      when it has lines, look for the first matching host. */
  method CheckPlainFeed(env: Env, fetch: Fetch, hosts: seq<string>, feedUrl: string)
    returns (hit: Result<Option<Report>>)
    ensures hit == SourceStep(env, fetch, hosts, Plain(feedUrl))
  {
    hit := Ok(None);
    var feed := fetch(feedUrl);
    if feed.Some? && feed.value != [] {
      hit := FirstMatchingHost(env, hosts, feed.value, feedUrl);
    }
  }

  /** The body of the CSV-feed loop (lines 239-252): fetch the feed, extract
      its indicators from a list the parser may change, and when there are
      any, look for the first matching host. */
  method CheckCsvFeed(env: Env, fetch: Fetch, hosts: seq<string>, feedUrl: string)
    returns (hit: Result<Option<Report>>)
    ensures hit == SourceStep(env, fetch, hosts, Csv(feedUrl))
  {
    hit := Ok(None);
    var feed := fetch(feedUrl);
    if feed.Some? && feed.value != [] {
      var buffer := new LineBuffer(feed.value);
      var indicators := ParseCsv(env, buffer);
      if indicators != [] {
        hit := FirstMatchingHost(env, hosts, indicators, feedUrl);
      }
    }
  }

  /** `is_threat(hosts)` with the feed lists and the fetch passed in. */
  method IsThreat(env: Env, fetch: Fetch, hosts: seq<string>, plainFeeds: seq<string>, csvFeeds: seq<string>)
    returns (r: Result<seq<Report>>)
    ensures r == Scan(env, fetch, hosts, Sources(plainFeeds, csvFeeds), [])
  {
    var results: seq<Report> := [];
    ghost var all := Sources(plainFeeds, csvFeeds);
    ghost var rest := all;
    var i := 0;
    while i < |plainFeeds|
      invariant 0 <= i <= |plainFeeds|
      invariant rest == all[i..]
      invariant Scan(env, fetch, hosts, rest, results) == Scan(env, fetch, hosts, all, [])
    {
      if |results| == |hosts| {
        return Ok(results);
      }
      var feedUrl := plainFeeds[i];
      assert rest[0] == Plain(feedUrl);
      var hit := CheckPlainFeed(env, fetch, hosts, feedUrl);
      ScanNext(env, fetch, hosts, rest, results, hit);
      if hit.Raised? {
        return Raised(hit.error);
      }
      if hit.value.Some? {
        results := results + [hit.value.value];
      }
      rest := rest[1..];
      i := i + 1;
    }
    var j := 0;
    while j < |csvFeeds|
      invariant 0 <= j <= |csvFeeds|
      invariant rest == all[|plainFeeds| + j..]
      invariant Scan(env, fetch, hosts, rest, results) == Scan(env, fetch, hosts, all, [])
    {
      if |results| == |hosts| {
        return Ok(results);
      }
      var feedUrl := csvFeeds[j];
      assert rest[0] == Csv(feedUrl);
      var hit := CheckCsvFeed(env, fetch, hosts, feedUrl);
      ScanNext(env, fetch, hosts, rest, results, hit);
      if hit.Raised? {
        return Raised(hit.error);
      }
      if hit.value.Some? {
        results := results + [hit.value.value];
      }
      rest := rest[1..];
      j := j + 1;
    }
    assert rest == [];
    return Ok(results);
  }

  /** `is_threat(hosts)` over the module's own feed lists, with the comma
      of `FEEDS['plain']` restored. */
  method IsThreatDefault(env: Env, fetch: Fetch, hosts: seq<string>) returns (r: Result<seq<Report>>)
    ensures r == Scan(env, fetch, hosts, Sources(PlainFeeds, CsvFeeds), [])
  {
    r := IsThreat(env, fetch, hosts, PlainFeeds, CsvFeeds);
  }

  /** A URL is listed as a plain feed exactly when it is in the plain list. */
  lemma {:induction false} SourcesPlain(plain: seq<string>, csv: seq<string>, u: string)
    ensures Plain(u) in Sources(plain, csv) <==> u in plain
    decreases |plain| + |csv|
  {
    if plain != [] {
      SourcesPlain(plain[1..], csv, u);
      assert Sources(plain, csv) == [Plain(plain[0])] + Sources(plain[1..], csv);
      assert plain == [plain[0]] + plain[1..];
    } else if csv != [] {
      SourcesPlain([], csv[1..], u);
      assert Sources(plain, csv) == [Csv(csv[0])] + Sources([], csv[1..]);
    }
  }

  /** `is_threat(hosts)` over `FEEDS` exactly as written. */
  method IsThreatAsWritten(env: Env, fetch: Fetch, hosts: seq<string>) returns (r: Result<seq<Report>>)
    ensures r == Scan(env, fetch, hosts, Sources(PlainFeedsAsWritten, CsvFeeds), [])
  {
    r := IsThreat(env, fetch, hosts, PlainFeedsAsWritten, CsvFeeds);
  }

  /** As written, the plain list has four entries, and neither the Malware
      Domain List nor the Cybercrime tracker is ever fetched on its own: the
      only plain source with either URL in it is their concatenation. */
  lemma FeedListAsWritten()
    ensures |Sources(PlainFeedsAsWritten, CsvFeeds)| == 5
    ensures Plain(MdlFeed) !in Sources(PlainFeedsAsWritten, CsvFeeds)
    ensures Plain(CybercrimeFeed) !in Sources(PlainFeedsAsWritten, CsvFeeds)
  {
    SourcesPlain(PlainFeedsAsWritten, CsvFeeds, MdlFeed);
    SourcesPlain(PlainFeedsAsWritten, CsvFeeds, CybercrimeFeed);
    assert MdlFeed[8] != CinsFeed[8];
  }

  /** With the comma restored there are six sources: the five plain feeds
      first, in their listed order, and PhishTank last. */
  lemma FeedListCorrected()
    ensures |Sources(PlainFeeds, CsvFeeds)| == 6
    ensures forall k :: 0 <= k < 5 ==> Sources(PlainFeeds, CsvFeeds)[k] == Plain(PlainFeeds[k])
    ensures Sources(PlainFeeds, CsvFeeds)[5] == Csv(PhishTankFeed)
    ensures Plain(MdlFeed) in Sources(PlainFeeds, CsvFeeds) && Plain(CybercrimeFeed) in Sources(PlainFeeds, CsvFeeds)
  {
    var all := Sources(PlainFeeds, CsvFeeds);
    assert all[|PlainFeeds| + 0] == Csv(CsvFeeds[0]);
    assert all[3] == Plain(PlainFeeds[3]) && all[4] == Plain(PlainFeeds[4]);
  }

  /** One step of the scan, by what the first feed gives. */
  lemma ScanCons(env: Env, fetch: Fetch, hosts: seq<string>, sources: seq<Source>, acc: seq<Report>)
    requires sources != [] && |acc| != |hosts|
    ensures var step := SourceStep(env, fetch, hosts, sources[0]);
            && (step.Raised? ==> Scan(env, fetch, hosts, sources, acc) == Raised(step.error))
            && (step == Ok(None) ==> Scan(env, fetch, hosts, sources, acc) == Scan(env, fetch, hosts, sources[1..], acc))
            && (step.Ok? && step.value.Some? ==>
                  Scan(env, fetch, hosts, sources, acc) == Scan(env, fetch, hosts, sources[1..], acc + [step.value.value]))
  {
  }

  /** ScanCons for a step whose result the caller already holds. */
  lemma ScanNext(env: Env, fetch: Fetch, hosts: seq<string>, sources: seq<Source>, acc: seq<Report>,
                 hit: Result<Option<Report>>)
    requires sources != [] && |acc| != |hosts| && hit == SourceStep(env, fetch, hosts, sources[0])
    ensures hit.Raised? ==> Scan(env, fetch, hosts, sources, acc) == Raised(hit.error)
    ensures hit == Ok(None) ==> Scan(env, fetch, hosts, sources, acc) == Scan(env, fetch, hosts, sources[1..], acc)
    ensures hit.Ok? && hit.value.Some? ==>
              Scan(env, fetch, hosts, sources, acc) == Scan(env, fetch, hosts, sources[1..], acc + [hit.value.value])
  {
    ScanCons(env, fetch, hosts, sources, acc);
  }

  /** A report the scan may append: some source's feed was matched and the
      report names the first host of the list that this feed matches. */
  predicate Sound(env: Env, fetch: Fetch, hosts: seq<string>, sources: seq<Source>, rep: Report) {
    exists src :: src in sources && src.url == rep.feedUrl && FeedOf(env, fetch, src).Some?
      && FirstHit(env, hosts, FeedOf(env, fetch, src).value, src.url) == Ok(Some(rep))
  }

  /** The early stop and the one-report-per-feed rule bound the result: the
      reports already made are kept as a prefix, no more reports than hosts
      come out, and each feed adds at most one. Once there are as many
      reports as hosts (at the start, for no hosts) nothing more is added. */
  lemma {:induction false} ScanBound(env: Env, fetch: Fetch, hosts: seq<string>, sources: seq<Source>, acc: seq<Report>)
    requires |acc| <= |hosts|
    ensures Scan(env, fetch, hosts, sources, acc).Ok? ==>
              var out := Scan(env, fetch, hosts, sources, acc).value;
              acc <= out && |out| <= |hosts| && |out| <= |acc| + |sources|
    ensures |acc| == |hosts| ==> Scan(env, fetch, hosts, sources, acc) == Ok(acc)
    decreases |sources|
  {
    if sources != [] && |acc| != |hosts| {
      match SourceStep(env, fetch, hosts, sources[0])
      case Raised(_) =>
      case Ok(None) =>
        ScanBound(env, fetch, hosts, sources[1..], acc);
      case Ok(Some(rep)) =>
        ScanBound(env, fetch, hosts, sources[1..], acc + [rep]);
        assert acc <= acc + [rep];
    }
  }

  /** Every report the scan adds is found, carries one of the four
      confidences, and comes from a configured source whose feed the named
      host is the first of the list to match. */
  lemma {:induction false} ScanReports(env: Env, fetch: Fetch, hosts: seq<string>, sources: seq<Source>, acc: seq<Report>)
    requires Scan(env, fetch, hosts, sources, acc).Ok?
    ensures var out := Scan(env, fetch, hosts, sources, acc).value;
            && acc <= out
            && forall n :: |acc| <= n < |out| ==>
                 && out[n].found && out[n].tenths in {10, 9, 7, 6}
                 && Sound(env, fetch, hosts, sources, out[n])
    decreases |sources|
  {
    if sources != [] && |acc| != |hosts| {
      var rest := sources[1..];
      assert forall src :: src in rest ==> src in sources;
      match SourceStep(env, fetch, hosts, sources[0])
      case Raised(_) =>
      case Ok(None) =>
        ScanReports(env, fetch, hosts, rest, acc);
      case Ok(Some(rep)) =>
        ScanReports(env, fetch, hosts, rest, acc + [rep]);
        var out := Scan(env, fetch, hosts, sources, acc).value;
        var feed := FeedOf(env, fetch, sources[0]).value;
        assert FirstHit(env, hosts, feed, sources[0].url) == Ok(Some(rep));
        FirstHitIsFirst(env, hosts, feed, sources[0].url);
        var j :| 0 <= j < |hosts| && ReportFor(env, hosts[j], feed, sources[0].url, rep);
        assert sources[0] in sources && sources[0].url == rep.feedUrl;
        assert Sound(env, fetch, hosts, sources, rep);
        assert rep.found && rep.tenths in {10, 9, 7, 6};
        assert out[|acc|] == (acc + [rep])[|acc|] == rep;
    }
  }

  /** Continues a scan from an earlier outcome: an exception stays. */
  function ScanOn(env: Env, fetch: Fetch, hosts: seq<string>, sources: seq<Source>, earlier: Result<seq<Report>>): Result<seq<Report>> {
    match earlier
    case Raised(e) => Raised(e)
    case Ok(mid) => Scan(env, fetch, hosts, sources, mid)
  }

  /** Feeds are scanned in sequence: scanning `a + b` is scanning `a`, then
      scanning `b` from the reports `a` produced, and an exception in `a`
      ends the whole scan. */
  lemma {:induction false} ScanSplit(env: Env, fetch: Fetch, hosts: seq<string>, a: seq<Source>, b: seq<Source>, acc: seq<Report>)
    ensures Scan(env, fetch, hosts, a + b, acc) == ScanOn(env, fetch, hosts, b, Scan(env, fetch, hosts, a, acc))
    decreases |a|
  {
    if a == [] {
      assert a + b == b;
    } else if |acc| != |hosts| {
      assert (a + b)[0] == a[0] && (a + b)[1..] == a[1..] + b;
      match SourceStep(env, fetch, hosts, a[0])
      case Raised(_) =>
      case Ok(None) =>
        ScanSplit(env, fetch, hosts, a[1..], b, acc);
      case Ok(Some(rep)) =>
        ScanSplit(env, fetch, hosts, a[1..], b, acc + [rep]);
    }
  }

  /** The plain feeds come before every CSV feed, and the CSV pass starts
      from what the plain pass returns. */
  lemma PlainBeforeCsv(env: Env, fetch: Fetch, hosts: seq<string>, plainFeeds: seq<string>, csvFeeds: seq<string>)
    ensures Scan(env, fetch, hosts, Sources(plainFeeds, csvFeeds), [])
         == ScanOn(env, fetch, hosts, Sources([], csvFeeds), Scan(env, fetch, hosts, Sources(plainFeeds, []), []))
  {
    SourcesSplit(plainFeeds, csvFeeds);
    ScanSplit(env, fetch, hosts, Sources(plainFeeds, []), Sources([], csvFeeds), []);
  }

  lemma {:induction false} SourcesSplit(plain: seq<string>, csv: seq<string>)
    ensures Sources(plain, csv) == Sources(plain, []) + Sources([], csv)
    decreases |plain|
  {
    if plain != [] {
      SourcesSplit(plain[1..], csv);
      assert Sources(plain, csv) == [Plain(plain[0])] + Sources(plain[1..], csv);
      assert Sources(plain, []) == [Plain(plain[0])] + Sources(plain[1..], []);
    }
  }

  /** A feed that cannot be fetched, or a CSV feed with no indicator, is
      skipped without effect. */
  lemma SkippedFeed(env: Env, fetch: Fetch, hosts: seq<string>, sources: seq<Source>, acc: seq<Report>)
    requires sources != [] && FeedOf(env, fetch, sources[0]).None?
    ensures Scan(env, fetch, hosts, sources, acc) == Scan(env, fetch, hosts, sources[1..], acc)
  {
  }

  /** The scan ends in an exception only when a fetched plain feed (or the
      indicator list of a CSV feed) has a kept whitespace-only line and
      there is a host to match. */
  lemma {:induction false} ScanRaises(env: Env, fetch: Fetch, hosts: seq<string>, sources: seq<Source>, acc: seq<Report>)
    requires Scan(env, fetch, hosts, sources, acc).Raised?
    ensures hosts != []
    ensures exists src :: src in sources && FeedOf(env, fetch, src).Some?
              && Stripped(env, FeedOf(env, fetch, src).value).Raised?
    decreases |sources|
  {
    var rest := sources[1..];
    assert forall src :: src in rest ==> src in sources;
    match SourceStep(env, fetch, hosts, sources[0])
    case Raised(_) =>
      FirstHitRaises(env, hosts, FeedOf(env, fetch, sources[0]).value, sources[0].url);
      assert sources[0] in sources;
    case Ok(None) =>
      ScanRaises(env, fetch, hosts, rest, acc);
    case Ok(Some(rep)) =>
      ScanRaises(env, fetch, hosts, rest, acc + [rep]);
  }

  /** The stripped hosts that reports name. */
  function ReportedHosts(reports: seq<Report>): set<string> {
    set rep | rep in reports :: rep.host
  }

  /** The stripped forms of the hosts to check. */
  function StrippedHosts(hosts: seq<string>): set<string> {
    if hosts == [] then {} else StrippedHosts(hosts[1..]) + {Strip(hosts[0])}
  }

  /** At most one report per host. */
  predicate DistinctHosts(reports: seq<Report>) {
    forall i, j :: 0 <= i < j < |reports| ==> reports[i].host != reports[j].host
  }

  /** Corrected host loop: a host already reported is skipped, as the early
      stop `len(results) == len(hosts)` presumes. */
  function FirstPendingHit(env: Env, hosts: seq<string>, feed: seq<string>, url: string, seen: set<string>): (r: Result<Option<Report>>)
    ensures r.Ok? && r.value.Some? ==> r.value.value.found && r.value.value.feedUrl == url
  {
    if hosts == [] then Ok(None)
    else
      var host := Strip(hosts[0]);
      if host in seen then FirstPendingHit(env, hosts[1..], feed, url, seen)
      else
        match IsInFeed(env, host, feed)
        case Raised(e) => Raised(e)
        case Ok(v) =>
          if v.found then Ok(Some(Report(host, true, v.tenths, url)))
          else FirstPendingHit(env, hosts[1..], feed, url, seen)
  }

  /** Corrected scan: the host loop of each feed skips the hosts already
      reported. Everything else is as in `Scan`. */
  function PendingScan(env: Env, fetch: Fetch, hosts: seq<string>, sources: seq<Source>, acc: seq<Report>): (r: Result<seq<Report>>)
    ensures r.Ok? ==> |acc| <= |r.value| <= |acc| + |sources|
    ensures r.Ok? ==> acc <= r.value
    decreases |sources|
  {
    if sources == [] || |acc| == |hosts| then Ok(acc)
    else
      match FeedOf(env, fetch, sources[0])
      case None => PendingScan(env, fetch, hosts, sources[1..], acc)
      case Some(feed) =>
        match FirstPendingHit(env, hosts, feed, sources[0].url, ReportedHosts(acc))
        case Raised(e) => Raised(e)
        case Ok(None) => PendingScan(env, fetch, hosts, sources[1..], acc)
        case Ok(Some(rep)) => PendingScan(env, fetch, hosts, sources[1..], acc + [rep])
  }

  /** A corrected host loop reports a host that is not yet reported, and
      that is one of the hosts to check. */
  lemma {:induction false} FirstPendingHitFresh(env: Env, hosts: seq<string>, feed: seq<string>, url: string, seen: set<string>)
    requires FirstPendingHit(env, hosts, feed, url, seen).Ok?
    requires FirstPendingHit(env, hosts, feed, url, seen).value.Some?
    ensures FirstPendingHit(env, hosts, feed, url, seen).value.value.host !in seen
    ensures FirstPendingHit(env, hosts, feed, url, seen).value.value.host in StrippedHosts(hosts)
  {
    var host := Strip(hosts[0]);
    if host in seen || !IsInFeed(env, host, feed).value.found {
      FirstPendingHitFresh(env, hosts[1..], feed, url, seen);
    }
  }

  /** The corrected scan keeps at most one report per host, and reports only
      the hosts it was given. */
  lemma {:induction false} PendingScanDistinct(env: Env, fetch: Fetch, hosts: seq<string>, sources: seq<Source>, acc: seq<Report>)
    requires DistinctHosts(acc)
    requires PendingScan(env, fetch, hosts, sources, acc).Ok?
    ensures DistinctHosts(PendingScan(env, fetch, hosts, sources, acc).value)
    ensures ReportedHosts(PendingScan(env, fetch, hosts, sources, acc).value)
         <= ReportedHosts(acc) + StrippedHosts(hosts)
    decreases |sources|
  {
    if sources != [] && |acc| != |hosts| {
      match FeedOf(env, fetch, sources[0])
      case None =>
        PendingScanDistinct(env, fetch, hosts, sources[1..], acc);
      case Some(feed) =>
        var seen := ReportedHosts(acc);
        match FirstPendingHit(env, hosts, feed, sources[0].url, seen)
        case Raised(_) =>
        case Ok(None) =>
          PendingScanDistinct(env, fetch, hosts, sources[1..], acc);
        case Ok(Some(rep)) =>
          FirstPendingHitFresh(env, hosts, feed, sources[0].url, seen);
          var acc' := acc + [rep];
          forall i, j | 0 <= i < j < |acc'|
            ensures acc'[i].host != acc'[j].host
          {
            if j == |acc| {
              assert acc[i] in acc;
            }
          }
          assert ReportedHosts(acc') == seen + {rep.host};
          PendingScanDistinct(env, fetch, hosts, sources[1..], acc');
    }
  }

  lemma {:induction false} DistinctCard(reports: seq<Report>)
    requires DistinctHosts(reports)
    ensures |ReportedHosts(reports)| == |reports|
  {
    if reports != [] {
      var init := reports[..|reports| - 1];
      var last := reports[|reports| - 1];
      assert reports == init + [last];
      DistinctCard(init);
      assert ReportedHosts(reports) == ReportedHosts(init) + {last.host};
      assert last.host !in ReportedHosts(init);
    }
  }

  lemma {:induction false} StrippedHostsCard(hosts: seq<string>)
    ensures |StrippedHosts(hosts)| <= |hosts|
  {
    if hosts != [] {
      StrippedHostsCard(hosts[1..]);
    }
  }

  lemma SubsetCard(a: set<string>, b: set<string>)
    requires a <= b
    ensures |a| <= |b|
  {
    assert b == a + (b - a);
  }

  lemma {:induction false} StrippedHostsHas(hosts: seq<string>, j: nat)
    requires j < |hosts|
    ensures Strip(hosts[j]) in StrippedHosts(hosts)
  {
    if j > 0 {
      var rest := hosts[1..];
      assert rest[j - 1] == hosts[j];
      StrippedHostsHas(rest, j - 1);
      assert StrippedHosts(hosts) == StrippedHosts(rest) + {Strip(hosts[0])};
    }
  }

  /** A subset at least as large as its superset is all of it. */
  lemma FullSubset(a: set<string>, b: set<string>)
    requires a <= b && |a| >= |b|
    ensures a == b
  {
    if x :| x in b && x !in a {
      SubsetCard(a, b - {x});
    }
  }

  /** With the correction, the early stop means what it says: when there
      are as many reports as hosts, every host has been reported. */
  lemma PendingStopMeansResolved(env: Env, fetch: Fetch, hosts: seq<string>, sources: seq<Source>)
    requires PendingScan(env, fetch, hosts, sources, []).Ok?
    requires |PendingScan(env, fetch, hosts, sources, []).value| == |hosts|
    ensures forall j :: 0 <= j < |hosts| ==>
              Strip(hosts[j]) in ReportedHosts(PendingScan(env, fetch, hosts, sources, []).value)
  {
    var out := PendingScan(env, fetch, hosts, sources, []).value;
    PendingScanDistinct(env, fetch, hosts, sources, []);
    assert ReportedHosts([]) == {};
    DistinctCard(out);
    StrippedHostsCard(hosts);
    FullSubset(ReportedHosts(out), StrippedHosts(hosts));
    forall j | 0 <= j < |hosts|
      ensures Strip(hosts[j]) in ReportedHosts(out)
    {
      StrippedHostsHas(hosts, j);
    }
  }

  /** Fixture collaborators: nothing is an IP, a URL or a range, and no
      string parses as a URL. */
  predicate NeverMatches(s: string) {
    false
  }

  function NoUrl(s: string): Option<UrlParts> {
    None
  }

  /** A single-word feed line: non-empty, no whitespace, not a comment. */
  predicate Word(w: string) {
    w != [] && NoSpace(w) && w[0] != '#'
  }

  lemma SameLengthContains(hay: string, needle: string)
    requires |hay| == |needle|
    ensures Contains(hay, needle) <==> hay == needle
  {
    if Contains(hay, needle) {
      var k :| 0 <= k <= |hay| && needle <= hay[k..];
      assert k == 0;
    } else {
      ContainsSelf(hay);
    }
  }

  /** Under the fixture, a one-word feed matches a host of the same length
      exactly when they are equal. */
  lemma WordVerdict(env: Env, host: string, word: string)
    requires env == Env(NeverMatches, NeverMatches, NeverMatches, NoUrl)
    requires |host| == |word| && word != [] && NoSpace(word) && word[0] != '#'
    ensures IsInFeed(env, host, [word]) == Ok(if host == word then Verdict(true, 10) else Miss)
  {
    assert Kept(word) && !AllSpace(word);
    assert word == [] + word + [];
    FirstTokenOf([], word, []);
    StrippedLine(env, word);
    assert Stripped(env, [word]) == Ok([word]);
    SameLengthContains(word, host);
    assert [word][0] == word;
    assert AnyContains([word], host) <==> Contains(word, host);
  }

  /** As written: with hosts `bad` and `good` and plain feeds "a", "b"
      (listing `bad`) and "c" (listing `good`), `bad` is reported twice,
      the early stop fires, and `good` is never reported although feed "c"
      matches it. */
  lemma DuplicateStopsEarly(env: Env, fetch: Fetch, bad: string, good: string)
    requires env == Env(NeverMatches, NeverMatches, NeverMatches, NoUrl)
    requires Word(bad) && Word(good) && |bad| == |good| && bad != good
    requires fetch("a") == Some([bad]) && fetch("b") == Some([bad]) && fetch("c") == Some([good])
    ensures Scan(env, fetch, [bad, good], [Plain("a"), Plain("b"), Plain("c")], [])
         == Ok([Report(bad, true, 10, "a"), Report(bad, true, 10, "b")])
    ensures IsInFeed(env, good, fetch("c").value) == Ok(Verdict(true, 10))
  {
    var hosts, sources := [bad, good], [Plain("a"), Plain("b"), Plain("c")];
    WordVerdict(env, bad, bad);
    WordVerdict(env, good, good);
    StripClean(bad);
    var r1 := [Report(bad, true, 10, "a")];
    var r2 := r1 + [Report(bad, true, 10, "b")];
    assert FirstHit(env, hosts, [bad], "a") == Ok(Some(r1[0]));
    assert FirstHit(env, hosts, [bad], "b") == Ok(Some(r2[1]));
    assert sources[1..] == [Plain("b"), Plain("c")] && sources[1..][1..] == [Plain("c")];
    assert FeedOf(env, fetch, Plain("a")) == Some([bad]) && FeedOf(env, fetch, Plain("b")) == Some([bad]);
    assert SourceStep(env, fetch, hosts, sources[0]) == Ok(Some(r1[0]));
    assert [] + [r1[0]] == r1;
    assert Scan(env, fetch, hosts, sources, []) == Scan(env, fetch, hosts, sources[1..], r1);
    assert Scan(env, fetch, hosts, sources[1..], r1) == Scan(env, fetch, hosts, [Plain("c")], r2);
    assert |r2| == |hosts| && Scan(env, fetch, hosts, [Plain("c")], r2) == Ok(r2);
    assert r2 == [Report(bad, true, 10, "a"), Report(bad, true, 10, "b")];
  }

  /** Corrected: on the same input `bad` is skipped after its first report
      and `good` is reported from feed "c". */
  lemma PendingResolvesBoth(env: Env, fetch: Fetch, bad: string, good: string)
    requires env == Env(NeverMatches, NeverMatches, NeverMatches, NoUrl)
    requires Word(bad) && Word(good) && |bad| == |good| && bad != good
    requires fetch("a") == Some([bad]) && fetch("b") == Some([bad]) && fetch("c") == Some([good])
    ensures PendingScan(env, fetch, [bad, good], [Plain("a"), Plain("b"), Plain("c")], [])
         == Ok([Report(bad, true, 10, "a"), Report(good, true, 10, "c")])
  {
    var hosts, sources := [bad, good], [Plain("a"), Plain("b"), Plain("c")];
    var r1 := [Report(bad, true, 10, "a")];
    var r2 := r1 + [Report(good, true, 10, "c")];
    PendingHits(env, bad, good);
    assert ReportedHosts([]) == {} && ReportedHosts(r1) == {bad};
    assert [] + r1 == r1;
    PendingStep(env, fetch, hosts, sources, [], [bad], Some(r1[0]));
    assert sources[1..] == [Plain("b"), Plain("c")];
    PendingStep(env, fetch, hosts, sources[1..], r1, [bad], None);
    assert sources[1..][1..] == [Plain("c")];
    PendingStep(env, fetch, hosts, [Plain("c")], r1, [good], Some(Report(good, true, 10, "c")));
    assert r2 == [Report(bad, true, 10, "a"), Report(good, true, 10, "c")];
  }

  /** One feed of the corrected scan: its first pending hit, if any, is
      appended and the scan goes on with the next feed. */
  lemma PendingStep(env: Env, fetch: Fetch, hosts: seq<string>, sources: seq<Source>, acc: seq<Report>,
                    feed: seq<string>, hit: Option<Report>)
    requires sources != [] && |acc| != |hosts|
    requires FeedOf(env, fetch, sources[0]) == Some(feed)
    requires FirstPendingHit(env, hosts, feed, sources[0].url, ReportedHosts(acc)) == Ok(hit)
    ensures PendingScan(env, fetch, hosts, sources, acc)
         == PendingScan(env, fetch, hosts, sources[1..], if hit.Some? then acc + [hit.value] else acc)
  {
  }

  lemma PendingHits(env: Env, bad: string, good: string)
    requires env == Env(NeverMatches, NeverMatches, NeverMatches, NoUrl)
    requires Word(bad) && Word(good) && |bad| == |good| && bad != good
    ensures FirstPendingHit(env, [bad, good], [bad], "a", {}) == Ok(Some(Report(bad, true, 10, "a")))
    ensures FirstPendingHit(env, [bad, good], [bad], "b", {bad}) == Ok(None)
    ensures FirstPendingHit(env, [bad, good], [good], "c", {bad}) == Ok(Some(Report(good, true, 10, "c")))
  {
    PendingFirst(env, bad, good);
    PendingSkip(env, bad, good);
    PendingSecond(env, bad, good);
  }

  lemma PendingFirst(env: Env, bad: string, good: string)
    requires env == Env(NeverMatches, NeverMatches, NeverMatches, NoUrl)
    requires Word(bad) && Word(good) && |bad| == |good| && bad != good
    ensures FirstPendingHit(env, [bad, good], [bad], "a", {}) == Ok(Some(Report(bad, true, 10, "a")))
  {
    WordVerdict(env, bad, bad);
    StripClean(bad);
  }

  lemma PendingSkip(env: Env, bad: string, good: string)
    requires env == Env(NeverMatches, NeverMatches, NeverMatches, NoUrl)
    requires Word(bad) && Word(good) && |bad| == |good| && bad != good
    ensures FirstPendingHit(env, [bad, good], [bad], "b", {bad}) == Ok(None)
  {
    var hosts := [bad, good];
    WordVerdict(env, good, bad);
    StripClean(bad);
    StripClean(good);
    assert hosts[1..] == [good] && hosts[1..][1..] == [];
    assert FirstPendingHit(env, [], [bad], "b", {bad}) == Ok(None);
    assert FirstPendingHit(env, [good], [bad], "b", {bad}) == Ok(None);
  }

  lemma PendingSecond(env: Env, bad: string, good: string)
    requires env == Env(NeverMatches, NeverMatches, NeverMatches, NoUrl)
    requires Word(bad) && Word(good) && |bad| == |good| && bad != good
    ensures FirstPendingHit(env, [bad, good], [good], "c", {bad}) == Ok(Some(Report(good, true, 10, "c")))
  {
    var hosts := [bad, good];
    WordVerdict(env, good, good);
    StripClean(bad);
    StripClean(good);
    assert hosts[1..] == [good];
  }
}
