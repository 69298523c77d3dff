/**
 * `SecurityManager` of the content script: the URL safety gate every image and
 * link open request passes. Parsing the URL (`new URL(url)`) is outside the
 * model: the caller supplies the parsed protocol and hostname, or `None` when
 * the URL constructor throws.
 */
module Security {
  import opened Wrappers
  import opened Strings

  /** What the URL parser reports: `urlObj.protocol` (with the colon) and `urlObj.hostname`. */
  datatype UrlParts = UrlParts(protocol: string, hostname: string)

  const SafeProtocols: seq<string> := ["http:", "https:", "ftp:", "ftps:"]

  const DangerousProtocols: seq<string> := [
    "javascript:", "data:", "file:", "vbscript:",
    "chrome:", "chrome-extension:", "moz-extension:",
    "ms-browser-extension:", "edge:"
  ]

  const LocalHosts: seq<string> := ["localhost", "127.0.0.1", "0.0.0.0", "::1"]

  /**
   * The prefixes `isPrivateIP` tests for, written out one by one: the three
   * blocks of section 3 of RFC 1918 (10/8, 172.16/12, 192.168/16) and the
   * link-local block 169.254/16, as dotted-decimal prefixes.
   */
  const PrivatePrefixes: seq<string> := [
    "10.",
    "172.16.", "172.17.", "172.18.", "172.19.", "172.20.", "172.21.", "172.22.", "172.23.",
    "172.24.", "172.25.", "172.26.", "172.27.", "172.28.", "172.29.", "172.30.", "172.31.",
    "192.168.", "169.254."
  ]

  /** The second octet of `^172\.(1[6-9]|2[0-9]|3[01])\.`, character by character. */
  predicate In172Block(h: string) {
    |h| >= 7 && h[..4] == "172." && h[6] == '.'
    && ((h[4] == '1' && '6' <= h[5] <= '9')
        || (h[4] == '2' && '0' <= h[5] <= '9')
        || (h[4] == '3' && (h[5] == '0' || h[5] == '1')))
  }

  /** `SecurityManager.isPrivateIP`: the four anchored regular expressions, as prefix tests. */
  function IsPrivateIP(hostname: string): (r: bool)
    ensures r <==> exists k :: 0 <= k < |PrivatePrefixes| && PrivatePrefixes[k] <= hostname
  {
    var r := "10." <= hostname || In172Block(hostname) || "192.168." <= hostname || "169.254." <= hostname;
    assert r ==> exists k :: 0 <= k < |PrivatePrefixes| && PrivatePrefixes[k] <= hostname by {
      if !r {
      } else if "10." <= hostname {
        assert PrivatePrefixes[0] <= hostname;
      } else if In172Block(hostname) {
        var k := if hostname[4] == '1' then hostname[5] as int - '6' as int + 1
                 else if hostname[4] == '2' then hostname[5] as int - '0' as int + 5
                 else hostname[5] as int - '0' as int + 15;
        assert hostname[..7] == PrivatePrefixes[k];
      } else if "192.168." <= hostname {
        assert PrivatePrefixes[17] <= hostname;
      } else {
        assert PrivatePrefixes[18] <= hostname;
      }
    }
    r
  }

  /** `SecurityManager.isUrlSafe`, given the parse of the URL (`None`: the constructor threw). */
  function IsUrlSafe(parsed: Option<UrlParts>): (r: bool)
    ensures r <==> parsed.Some?
                   && Lower(parsed.value.protocol) in SafeProtocols
                   && Lower(parsed.value.hostname) !in LocalHosts
                   && !IsPrivateIP(Lower(parsed.value.hostname))
    ensures parsed.Some? && Lower(parsed.value.protocol) in DangerousProtocols ==> !r
  {
    match parsed
    case None => false
    case Some(u) =>
      var protocol := Lower(u.protocol);
      if protocol in DangerousProtocols then false
      else if protocol !in SafeProtocols then false
      else
        var hostname := Lower(u.hostname);
        if hostname in LocalHosts then false
        else !IsPrivateIP(hostname)
  }

  /** A hostname whose first octet is not 10, 172, 192 or 169 is never private. */
  lemma PublicFirstOctet(h: string)
    requires !("10." <= h) && !("172." <= h) && !("192." <= h) && !("169." <= h)
    ensures !IsPrivateIP(h)
  {
  }

  /** With a two-digit second octet after 172, the address is private exactly for 16 to 31. */
  lemma Second172Octet(h: string)
    requires |h| >= 7 && h[..4] == "172." && h[6] == '.' && '0' <= h[4] <= '9' && '0' <= h[5] <= '9'
    ensures IsPrivateIP(h) <==> 16 <= 10 * (h[4] as int - '0' as int) + (h[5] as int - '0' as int) <= 31
  {
    assert h[1] == '7' && h[2] == '2';
  }
}
