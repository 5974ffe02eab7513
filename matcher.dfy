/** Layered matcher `__is_in_feed` (pura/modules/threat_intel.py, lines
    151-193). The feed is stripped afresh, then a fixed chain of exact checks
    (confidence 1.0) is tried before a chain of substring checks (0.9, 0.6,
    0.6, 0.7); the first hit returns. Confidences are kept as integer tenths. */
module Matcher {

  import opened Wrappers
  import opened Text
  import opened Indicators
  import opened PlainFeed

  /** `(found, confidence)`, the confidence in tenths. */
  datatype Verdict = Verdict(found: bool, tenths: int)

  const Miss := Verdict(false, 0)

  /** The list comprehension `[line for line in feed if needle in line]` is
      non-empty. */
  predicate AnyContains(feed: seq<string>, needle: string) {
    exists i :: 0 <= i < |feed| && Contains(feed[i], needle)
  }

  /** One of the four exact checks of lines 153-168 fires. */
  predicate ExactHit(env: Env, host: string, feed: seq<string>) {
    || (env.isIP(host) && host in feed)
    || (env.isURL(host) && (FqdnPath(env, host) in feed || Fqdn(env, host) in feed))
    || host in feed
  }

  /** `__is_in_feed` once the feed is stripped. The let-bound `m` follows the
      local `match` of the source through its reassignments at lines 172,
      175, 180 and 185: the final test `if match` sees the last of them. */
  function MatchStripped(env: Env, host: string, feed: seq<string>): (r: Verdict)
    ensures r == Miss || (r.found && r.tenths in {10, 9, 7, 6})
  {
    if env.isIP(host) && host in feed then Verdict(true, 10)
    else if env.isURL(host) && FqdnPath(env, host) in feed then Verdict(true, 10)
    else if env.isURL(host) && Fqdn(env, host) in feed then Verdict(true, 10)
    else if host in feed then Verdict(true, 10)
    else
      var m := AnyContains(feed, host);
      if env.isURL(host) && AnyContains(feed, FqdnPath(env, host)) then Verdict(true, 9)
      else
        var m := if env.isURL(host) then AnyContains(feed, Fqdn(env, host)) else m;
        if env.isURL(host) && m then Verdict(true, 6)
        else
          var m := if env.isIP(host) then AnyContains(feed, host) else m;
          if env.isIP(host) && m then Verdict(true, 6)
          else if m then Verdict(true, 7)
          else Miss
  }

  /** `__is_in_feed(host, feed)`: strips a copy of the feed (the caller's
      list is a value here and is never changed), then matches. Only
      `(True, c)` with c in {1.0, 0.9, 0.7, 0.6} or `(False, 0.0)` comes out,
      and stripping's IndexError passes through. */
  function IsInFeed(env: Env, host: string, feed: seq<string>): (r: Result<Verdict>)
    ensures r.Raised? <==> Stripped(env, feed).Raised?
    ensures r.Ok? ==> r.value == Miss || (r.value.found && r.value.tenths in {10, 9, 7, 6})
  {
    match Stripped(env, feed)
    case Raised(e) => Raised(e)
    case Ok(entries) => Ok(MatchStripped(env, host, entries))
  }

  /** An exact hit outranks every partial one: the result is 1.0 exactly
      when one of the exact checks fires. */
  lemma ExactOutranksPartial(env: Env, host: string, feed: seq<string>)
    ensures MatchStripped(env, host, feed).tenths == 10 <==> ExactHit(env, host, feed)
    ensures ExactHit(env, host, feed) ==> MatchStripped(env, host, feed) == Verdict(true, 10)
  {
  }

  /** Confidence 0.7 is reachable only for a host that is neither an IP nor
      a URL, because the URL and IP branches overwrite `match`. */
  lemma PartialSevenOnlyForOpaque(env: Env, host: string, feed: seq<string>)
    ensures MatchStripped(env, host, feed).tenths == 7 ==> !env.isIP(host) && !env.isURL(host)
  {
  }

  /** A host that is neither IP nor URL: 1.0 if it is an entry, 0.7 if it is
      a substring of one, else no match. */
  lemma OpaqueHost(env: Env, host: string, feed: seq<string>)
    requires !env.isIP(host) && !env.isURL(host)
    ensures MatchStripped(env, host, feed)
         == if host in feed then Verdict(true, 10)
            else if AnyContains(feed, host) then Verdict(true, 7)
            else Miss
  {
  }

  /** An IP that is not a URL: 1.0 if it is an entry, 0.6 if it is a
      substring of one, else no match. */
  lemma IpHost(env: Env, host: string, feed: seq<string>)
    requires env.isIP(host) && !env.isURL(host)
    ensures MatchStripped(env, host, feed)
         == if host in feed then Verdict(true, 10)
            else if AnyContains(feed, host) then Verdict(true, 6)
            else Miss
  {
  }

  /** A URL that is not an IP: the exact checks on host+path, host and the
      whole string first, then host+path as a substring (0.9) before host as
      a substring (0.6). The whole URL being a substring of an entry is not
      enough on its own. */
  lemma UrlHost(env: Env, host: string, feed: seq<string>)
    requires env.isURL(host) && !env.isIP(host)
    ensures MatchStripped(env, host, feed)
         == if FqdnPath(env, host) in feed || Fqdn(env, host) in feed || host in feed then Verdict(true, 10)
            else if AnyContains(feed, FqdnPath(env, host)) then Verdict(true, 9)
            else if AnyContains(feed, Fqdn(env, host)) then Verdict(true, 6)
            else Miss
  {
  }

  /** Whenever the host+path substring check would fire, so would the
      host-only one: trying 0.9 first is what lets 0.9 be returned at all. */
  lemma PathPartialImpliesHostPartial(env: Env, host: string, feed: seq<string>)
    requires AnyContains(feed, FqdnPath(env, host))
    ensures AnyContains(feed, Fqdn(env, host))
  {
    var i :| 0 <= i < |feed| && Contains(feed[i], FqdnPath(env, host));
    FqdnPrefixOfPath(env, host);
    ContainsPrefix(feed[i], FqdnPath(env, host), Fqdn(env, host));
  }

  lemma AnyContainsAppend(feed: seq<string>, more: seq<string>, needle: string)
    requires AnyContains(feed, needle)
    ensures AnyContains(feed + more, needle)
  {
    var i :| 0 <= i < |feed| && Contains(feed[i], needle);
    assert (feed + more)[i] == feed[i];
  }

  /** More entries never lose a match (the confidence may change). */
  lemma FoundMonotone(env: Env, host: string, feed: seq<string>, more: seq<string>)
    requires MatchStripped(env, host, feed).found
    ensures MatchStripped(env, host, feed + more).found
  {
    var big := feed + more;
    assert forall x :: x in feed ==> x in big;
    if !ExactHit(env, host, feed) {
      if env.isURL(host) && AnyContains(feed, FqdnPath(env, host)) {
        AnyContainsAppend(feed, more, FqdnPath(env, host));
      } else if env.isURL(host) && AnyContains(feed, Fqdn(env, host)) {
        AnyContainsAppend(feed, more, Fqdn(env, host));
      } else {
        AnyContainsAppend(feed, more, host);
      }
    }
  }

  /** An IP that is an entry matches exactly. */
  lemma IpExactExample(env: Env)
    requires env.isIP("10.0.0.1")
    ensures MatchStripped(env, "10.0.0.1", ["10.0.0.1", "foo"]) == Verdict(true, 10)
  {
  }

  /** A URL whose host+path, or whose host alone, is an entry matches exactly. */
  lemma UrlExactExample(env: Env, host: string)
    requires host == "http://evil.example.com/login" && env.isURL(host)
    requires env.urlparse(host) == Some(UrlParts("evil.example.com", "/login"))
    ensures MatchStripped(env, host, ["evil.example.com/login"]) == Verdict(true, 10)
    ensures MatchStripped(env, host, ["evil.example.com"]) == Verdict(true, 10)
  {
    assert FqdnPath(env, host) == "evil.example.com/login";
    assert Fqdn(env, host) == "evil.example.com";
  }

  /** A URL whose host+path sits strictly inside an entry matches partially
      at 0.9: `http://evil.example.com/login?x=1` against the entry
      `something-evil.example.com/login-page`, say. */
  lemma UrlPartialExample(env: Env, host: string, netloc: string, path: string,
                          before: string, after: string)
    requires env.isURL(host) && env.urlparse(host) == Some(UrlParts(netloc, path)) && netloc != []
    requires before != [] && host != before + netloc + path + after
    ensures MatchStripped(env, host, [before + netloc + path + after]) == Verdict(true, 9)
  {
    var fp, entry := netloc + path, before + netloc + path + after;
    assert FqdnPath(env, host) == fp && Fqdn(env, host) == netloc;
    assert entry[|before|..] == fp + after;
    assert fp <= entry[|before|..];
    assert [entry][0] == entry;
    assert AnyContains([entry], fp);
    assert |fp| < |entry| && |netloc| < |entry|;
  }
}
