/**
 * The lexical URL features of `url_utilities/url.py` (the same six
 * functions appear, character for character, in `load_data/load_data.py`,
 * so one definition serves both).
 *
 * `urllib.parse.urlparse` is not modelled: each feature that needs it takes
 * the parsed parts of its own URL as a `UrlParts` value.
 */
module UrlFeatures {
  import opened Wrappers
  import opened Strings
  import opened IpRegex

  /** The two fields of `urlparse(url)` that the features read. */
  datatype UrlParts = UrlParts(scheme: string, hostname: Option<string>)

  // ---------------------------------------------------------------------
  // abnormal_url

  /** Characters that make a regular expression more than literal text and `.`. */
  const RegexMetacharacters: string := "^$*+?{}[]\\|()"

  /**
   * The hostnames whose use as a pattern is modelled: no metacharacter
   * other than `.` (an absent hostname is searched as the text "None").
   */
  predicate HostnameSupported(hostname: Option<string>) {
    hostname.Some? ==>
      forall k | 0 <= k < |hostname.value| :: hostname.value[k] !in RegexMetacharacters
  }

  /** One pattern character against one text character: `.` is any character but a newline. */
  predicate PatternCharMatches(p: char, c: char) {
    if p == '.' then c != '\n' else c == p
  }

  /** The pattern `pat` (literal characters and `.`) matches `s` at index `i`. */
  predicate PatternMatchesAt(pat: string, s: string, i: int) {
    0 <= i && i + |pat| <= |s| &&
    forall k | 0 <= k < |pat| :: PatternCharMatches(pat[k], s[i + k])
  }

  /** `re.search(pat, s)` finds a match. */
  predicate PatternSearch(pat: string, s: string) {
    exists i | 0 <= i <= |s| - |pat| :: PatternMatchesAt(pat, s, i)
  }

  /**
   * `abnormal_url(url)`, where `parts` is `urlparse(url)`: 1 when the
   * hostname, read as a regular expression, matches somewhere in the URL.
   */
  function AbnormalUrl(url: string, parts: UrlParts): (flag: int)
    requires HostnameSupported(parts.hostname)
    ensures flag == 0 || flag == 1
    ensures flag == 1 <==> PatternSearch(Str(parts.hostname), url)
  {
    if PatternSearch(Str(parts.hostname), url) then 1 else 0
  }

  /** A literal occurrence is a match. */
  lemma OccurrenceIsMatch(t: string, s: string, i: int)
    requires OccursAt(t, s, i)
    ensures PatternMatchesAt(t, s, i)
  {
    forall k | 0 <= k < |t|
      ensures PatternCharMatches(t[k], s[i + k])
    {
      assert s[i..i + |t|][k] == s[i + k];
    }
  }

  /** Without a `.`, a match is a literal occurrence. */
  lemma DotFreeMatchIsOccurrence(t: string, s: string, i: int)
    requires '.' !in t
    requires PatternMatchesAt(t, s, i)
    ensures OccursAt(t, s, i)
  {
    forall k | 0 <= k < |t|
      ensures s[i..i + |t|][k] == t[k]
    {
      assert t[k] in t;
    }
  }

  /** A URL that contains its hostname literally is flagged 1. */
  lemma AbnormalUrlLiteralHost(url: string, parts: UrlParts)
    requires HostnameSupported(parts.hostname)
    requires Contains(url, Str(parts.hostname))
    ensures AbnormalUrl(url, parts) == 1
  {
    var t := Str(parts.hostname);
    var i :| 0 <= i <= |url| - |t| && OccursAt(t, url, i);
    OccurrenceIsMatch(t, url, i);
  }

  /** For a hostname without a `.` the search is exactly `hostname in url`. */
  lemma AbnormalUrlDotFreeHost(url: string, parts: UrlParts)
    requires HostnameSupported(parts.hostname)
    requires '.' !in Str(parts.hostname)
    ensures AbnormalUrl(url, parts) == 1 <==> Contains(url, Str(parts.hostname))
  {
    var t := Str(parts.hostname);
    if AbnormalUrl(url, parts) == 1 {
      var i :| 0 <= i <= |url| - |t| && PatternMatchesAt(t, url, i);
      DotFreeMatchIsOccurrence(t, url, i);
    } else if Contains(url, t) {
      AbnormalUrlLiteralHost(url, parts);
    }
  }

  /** Without a hostname the text "None" is searched for. */
  lemma AbnormalUrlNoHost(url: string, scheme: string)
    ensures AbnormalUrl(url, UrlParts(scheme, None)) == 1 <==> Contains(url, "None")
  {
    AbnormalUrlDotFreeHost(url, UrlParts(scheme, None));
  }

  /**
   * The `.` of a hostname is a wildcard: `http://A.B/axb`, whose lower-cased
   * host is `a.b`, does not contain `a.b` but the pattern matches `axb`.
   */
  lemma AbnormalUrlWildcard()
    ensures AbnormalUrl("http://A.B/axb", UrlParts("http", Some("a.b"))) == 1
    ensures !Contains("http://A.B/axb", "a.b")
  {
    var url := "http://A.B/axb";
    assert PatternMatchesAt("a.b", url, 11);
    forall i | 0 <= i <= |url| - 3
      ensures !OccursAt("a.b", url, i)
    {
      // The only `.` of the URL is at index 8, and `A` precedes it.
      assert url[i..i + 3][0] == url[i] && url[i..i + 3][1] == url[i + 1];
    }
  }

  /** The documented example. */
  lemma AbnormalUrlExample()
    ensures AbnormalUrl("https://www.example.com/path/to/page",
                        UrlParts("https", Some("www.example.com"))) == 1
  {
    var url := "https://www.example.com/path/to/page";
    assert url == "https://" + "www.example.com" + "/path/to/page";
    ContainsPlaced("https://", "www.example.com", "/path/to/page");
    ExampleHostnameSupported();
    AbnormalUrlLiteralHost(url, UrlParts("https", Some("www.example.com")));
  }

  lemma ExampleHostnameSupported()
    ensures HostnameSupported(Some("www.example.com"))
  {
    forall k | 0 <= k < |"www.example.com"|
      ensures "www.example.com"[k] !in RegexMetacharacters
    {
      var c := "www.example.com"[k];
      assert c == '.' || 'a' <= c <= 'z';
    }
  }

  // ---------------------------------------------------------------------
  // http_secure

  /** `http_secure(url)`, where `parts` is `urlparse(url)`. */
  function HttpSecure(parts: UrlParts): (flag: int)
    ensures flag == 0 || flag == 1
    ensures flag == 1 <==> parts.scheme == "https"
  {
    if parts.scheme == "https" then 1 else 0
  }

  /** The documented example, and a scheme that merely starts with `https`. */
  lemma HttpSecureExamples()
    ensures HttpSecure(UrlParts("https", Some("www.example.com"))) == 1
    ensures HttpSecure(UrlParts("http", Some("www.example.com"))) == 0
    ensures HttpSecure(UrlParts("https+unix", None)) == 0
  {
    assert "https+unix" != "https" by {
      assert |"https+unix"| != |"https"|;
    }
  }

  // ---------------------------------------------------------------------
  // digit_count and letter_count

  /** `digit_count(url)`: the loop over the characters with its counter. */
  method DigitCount(url: string) returns (digits: nat)
    ensures digits == CountIf(url, IsNumeric)
  {
    digits := 0;
    for i := 0 to |url|
      invariant digits == CountIf(url[..i], IsNumeric)
    {
      assert url[..i + 1][..i] == url[..i];
      if IsNumeric(url[i]) {
        digits := digits + 1;
      }
    }
    assert url[..|url|] == url;
  }

  /** `letter_count(url)`: the loop over the characters with its counter. */
  method LetterCount(url: string) returns (letters: nat)
    ensures letters == CountIf(url, IsAlpha)
  {
    letters := 0;
    for i := 0 to |url|
      invariant letters == CountIf(url[..i], IsAlpha)
    {
      assert url[..i + 1][..i] == url[..i];
      if IsAlpha(url[i]) {
        letters := letters + 1;
      }
    }
    assert url[..|url|] == url;
  }

  /** The ASCII digit and letter classes are disjoint, so together they never exceed the length. */
  lemma DigitsAndLettersBound(url: string)
    ensures CountIf(url, IsNumeric) + CountIf(url, IsAlpha) <= |url|
  {
    DisjointCountsBound(url, []);
  }

  /** The documented example of `digit_count`. */
  lemma DigitCountExample()
    ensures CountIf("https://www.example123.com/path/to/page", IsNumeric) == 3
  {
    var a, b, c := "https://www.example", "123", ".com/path/to/page";
    assert a + b + c == "https://www.example123.com/path/to/page";
    CountIfAppend(a + b, c, IsNumeric);
    CountIfAppend(a, b, IsNumeric);
    CountIfNone(a, IsNumeric);
    CountIfAll(b, IsNumeric);
    CountIfNone(c, IsNumeric);
  }

  /** The documented example of `letter_count`. */
  lemma LetterCountExample()
    ensures CountIf("https://www.example.com/PathToPage", IsAlpha) == 28
  {
    var a, b := "https://www.example", ".com/PathToPage";
    assert a + b == "https://www.example.com/PathToPage";
    CountLettersHead();
    CountLettersTail();
    CountIfAppend(a, b, IsAlpha);
  }

  lemma CountLettersHead()
    ensures CountIf("https://www.example", IsAlpha) == 15
  {
    var a, b, c, d, e := "https", "://", "www", ".", "example";
    assert a + b + c + d + e == "https://www.example";
    CountIfAppend(a + b + c + d, e, IsAlpha);
    CountIfAppend(a + b + c, d, IsAlpha);
    CountIfAppend(a + b, c, IsAlpha);
    CountIfAppend(a, b, IsAlpha);
    CountIfAll(a, IsAlpha);
    CountIfNone(b, IsAlpha);
    CountIfAll(c, IsAlpha);
    CountIfNone(d, IsAlpha);
    CountIfAll(e, IsAlpha);
  }

  lemma CountLettersTail()
    ensures CountIf(".com/PathToPage", IsAlpha) == 13
  {
    var a, b, c, d := ".", "com", "/", "PathToPage";
    assert a + b + c + d == ".com/PathToPage";
    CountIfAppend(a + b + c, d, IsAlpha);
    CountIfAppend(a + b, c, IsAlpha);
    CountIfAppend(a, b, IsAlpha);
    CountIfNone(a, IsAlpha);
    CountIfAll(b, IsAlpha);
    CountIfNone(c, IsAlpha);
    CountIfAll(d, IsAlpha);
  }

  // ---------------------------------------------------------------------
  // shortening_service

  /**
   * The alternatives of the `shortening_service` pattern, in order and with
   * their repetitions; every `.` in them is escaped, so each is literal text.
   */
  const ShortenerPatterns: seq<string> :=
    Shorteners1 + Shorteners2 + Shorteners3 + Shorteners4 + Shorteners5 + Shorteners6 + Shorteners7 + Shorteners8

  // One constant per line of the pattern in `shortening_service` (url_utilities/url.py:129-136).
  const Shorteners1: seq<string> := ["bit.ly", "goo.gl", "shorte.st", "go2l.ink", "x.co", "ow.ly", "t.co", "tinyurl", "tr.im", "is.gd", "cli.gs"]
  const Shorteners2: seq<string> := ["yfrog.com", "migre.me", "ff.im", "tiny.cc", "url4.eu", "twit.ac", "su.pr", "twurl.nl", "snipurl.com"]
  const Shorteners3: seq<string> := ["short.to", "BudURL.com", "ping.fm", "post.ly", "Just.as", "bkite.com", "snipr.com", "fic.kr", "loopt.us"]
  const Shorteners4: seq<string> := ["doiop.com", "short.ie", "kl.am", "wp.me", "rubyurl.com", "om.ly", "to.ly", "bit.do", "t.co", "lnkd.in"]
  const Shorteners5: seq<string> := ["db.tt", "qr.ae", "adf.ly", "goo.gl", "bitly.com", "cur.lv", "tinyurl.com", "ow.ly", "bit.ly", "ity.im"]
  const Shorteners6: seq<string> := ["q.gs", "is.gd", "po.st", "bc.vc", "twitthis.com", "u.to", "j.mp", "buzurl.com", "cutt.us", "u.bb", "yourls.org"]
  const Shorteners7: seq<string> := ["x.co", "prettylinkpro.com", "scrnch.me", "filoops.info", "vzturl.com", "qr.net", "1url.com", "tweez.me", "v.gd"]
  const Shorteners8: seq<string> := ["tr.im", "link.zip.net"]

  /** Some alternative of the shortener pattern occurs in `url`. */
  predicate HasShortener(url: string) {
    exists k | 0 <= k < |ShortenerPatterns| :: Contains(url, ShortenerPatterns[k])
  }

  /** `shortening_service(url)`. */
  function ShorteningService(url: string): (flag: int)
    ensures flag == 0 || flag == 1
    ensures flag == 1 <==> HasShortener(url)
  {
    if HasShortener(url) then 1 else 0
  }

  /** Adding text before or after a URL never clears the shortener flag. */
  lemma ShorteningInContext(pre: string, url: string, post: string)
    requires ShorteningService(url) == 1
    ensures ShorteningService(pre + url + post) == 1
  {
    var k :| 0 <= k < |ShortenerPatterns| && Contains(url, ShortenerPatterns[k]);
    ContainsInContext(pre, url, post, ShortenerPatterns[k]);
  }

  /** The documented example. */
  lemma ShorteningExample()
    ensures ShorteningService("https://bit.ly/abc123") == 1
  {
    assert ShortenerPatterns[0] == Shorteners1[0] == "bit.ly";
    assert "https://bit.ly/abc123" == "https://" + "bit.ly" + "/abc123";
    ContainsPlaced("https://", "bit.ly", "/abc123");
  }

  // ---------------------------------------------------------------------
  // ip_address

  /** `ip_address(url)`. */
  function IpAddress(url: string): (flag: int)
    ensures flag == 0 || flag == 1
    ensures flag == 1 <==> SearchIp(url)
  {
    if SearchIp(url) then 1 else 0
  }

  /** The documented example: the dotted quad `192.168.0.1` at index 8. */
  lemma IpAddressExample()
    ensures IpAddress("https://192.168.0.1/path/to/page") == 1
  {
    var url := "https://192.168.0.1/path/to/page";
    assert QuadAt(Strict, url, 8, 11, 15, 17, 19);
    assert IpPatternAt(url, 8, 19);
  }

  /** A URL without a decimal digit, or without a dot, is never flagged. */
  lemma IpAddressNeedsDigitAndDot(url: string)
    requires (forall k | 0 <= k < |url| :: !IsDigit(url[k])) || '.' !in url
    ensures IpAddress(url) == 0
  {
    if SearchIp(url) {
      SearchNeedsDigitAndDot(url);
      assert false;
    }
  }

  /** A bare IPv6 address in full form is not recognised: the hextet group only follows a hexadecimal quad. */
  lemma IpAddressBareIpv6()
    ensures IpAddress("2001:0db8:85a3:0000:0000:8a2e:0370:7334") == 0
  {
    IpAddressNeedsDigitAndDot("2001:0db8:85a3:0000:0000:8a2e:0370:7334");
  }

  /** Without a `:` in the URL, only a dotted quad of decimal octets up to 255 is recognised. */
  lemma IpAddressWithoutColon(url: string)
    requires ':' !in url
    ensures IpAddress(url) == 1 <==> exists i, j | 0 <= i <= j <= |url| :: Quad(Strict, url, i, j)
  {
    SearchIpWithoutColon(url);
  }
}
