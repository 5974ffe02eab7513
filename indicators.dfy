/** Indicator normaliser (pura/modules/threat_intel.py, lines 29-78): the
    IP and URL tests and the host / host+path projections of a URL.

    The regular expressions `REGEX.IP`, `REGEX.URL` and `REGEX.IP_MULTI` live
    in pura/helpers/regex.py, which is not part of this model, and
    `urllib.parse.urlparse` is library code: all four reach the model as the
    fields of an `Env`, uninterpreted. */
module Indicators {

  import opened Wrappers
  import opened Text

  /** What `urlparse` yields that the engine reads. */
  datatype UrlParts = UrlParts(netloc: string, path: string)

  /** The engine's collaborators: `__is_ip`, `__is_url`, the `IP_MULTI`
      match of `__strip_feed`, and `urlparse`, whose `None` stands for the
      ValueError it raises on a malformed URL. */
  datatype Env = Env(
    isIP: string -> bool,
    isURL: string -> bool,
    ipMulti: string -> bool,
    urlparse: string -> Option<UrlParts>)

  /** `__get_fqdn`: the network location, or the host itself when there is none
      or parsing fails. */
  function Fqdn(env: Env, host: string): (r: string)
    ensures !HasNetloc(env, host) ==> r == host
    ensures HasNetloc(env, host) ==> r != [] && r == env.urlparse(host).value.netloc
  {
    match env.urlparse(host)
    case Some(parts) => if parts.netloc != [] then parts.netloc else host
    case None => host
  }

  /** `__get_fqdn_path`: network location followed by path, with the same
      fallback to the host itself. */
  function FqdnPath(env: Env, host: string): (r: string)
    ensures !HasNetloc(env, host) ==> r == host
    ensures HasNetloc(env, host) ==> env.urlparse(host).value.netloc <= r
  {
    match env.urlparse(host)
    case Some(parts) => if parts.netloc != [] then parts.netloc + parts.path else host
    case None => host
  }

  /** Whether the host has a usable network location. */
  predicate HasNetloc(env: Env, host: string) {
    env.urlparse(host).Some? && env.urlparse(host).value.netloc != []
  }

  /** The two projections agree on their fallback: without a network location
      both are the host unchanged; with one, the host-only projection is the
      network location and the host+path projection extends it by the path. */
  lemma Projections(env: Env, host: string)
    ensures !HasNetloc(env, host) ==> Fqdn(env, host) == host && FqdnPath(env, host) == host
    ensures HasNetloc(env, host) ==>
              && Fqdn(env, host) == env.urlparse(host).value.netloc
              && Fqdn(env, host) != []
              && FqdnPath(env, host) == Fqdn(env, host) + env.urlparse(host).value.path
  {
  }

  /** The host-only projection is always a prefix of the host+path one, so any
      feed entry that contains the host+path projection contains the host. */
  lemma FqdnPrefixOfPath(env: Env, host: string)
    ensures Fqdn(env, host) <= FqdnPath(env, host)
  {
    if HasNetloc(env, host) {
      var parts := env.urlparse(host).value;
      assert (parts.netloc + parts.path)[..|parts.netloc|] == parts.netloc;
    }
  }
}
