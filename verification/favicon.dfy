/**
 * URL helpers of src/utils/favicon.js: `normalizeUrl`, which puts a scheme
 * in front of a bare address, and the part of `getWebsiteName` that turns a
 * hostname into a short site name. Parsing a URL into its hostname is done
 * by the platform's `URL` constructor; here the hostname is the input.
 */
module Favicon {
  import opened Strings

  /**
   * The test `/^https?:\/\//i`: the string starts with `http://` or
   * `https://` in any mix of cases. Without the `u` flag only ASCII letters
   * match case-insensitively, which is what `Lower` maps.
   */
  predicate HasScheme(url: string) {
    (|url| >= 7 && Lower(url[..7]) == "http://") || (|url| >= 8 && Lower(url[..8]) == "https://")
  }

  /** `normalizeUrl(url)`: `''` for an empty input, the input when it has a scheme, else `https://` and the input. */
  function NormalizeUrl(url: string): (r: string)
    ensures r == "" <==> url == ""
    ensures url != "" ==> HasScheme(r)
    ensures |url| <= |r| && r[|r| - |url|..] == url
  {
    if url == "" then ""
    else if !HasScheme(url) then
      PrefixedHasScheme(url);
      "https://" + url
    else url
  }

  /** Putting `https://` in front of any string gives one with a scheme. */
  lemma {:induction false} PrefixedHasScheme(url: string)
    ensures HasScheme("https://" + url)
  {
    var p := "https://" + url;
    assert p[..8] == "https://";
    assert Lower("https://") == "https://";
  }

  /** Inputs that already have a scheme, and only those, come back unchanged (for a non-empty input). */
  lemma {:induction false} NormalizeKeepsScheme(url: string)
    requires url != ""
    ensures NormalizeUrl(url) == url <==> HasScheme(url)
  {
    if !HasScheme(url) {
      assert |NormalizeUrl(url)| == |url| + 8;
    }
  }

  /** Normalising twice gives what normalising once gives. */
  lemma {:induction false} NormalizeIdempotent(url: string)
    ensures NormalizeUrl(NormalizeUrl(url)) == NormalizeUrl(url)
  {
    var r := NormalizeUrl(url);
    if r != "" {
      assert HasScheme(r);
    }
  }

  /** The hostname after `replace(/^www\./, '')`: one leading `www.` is dropped. */
  function StripWww(hostname: string): (r: string)
    ensures StartsWith(hostname, "www.") ==> hostname == "www." + r
    ensures !StartsWith(hostname, "www.") ==> r == hostname
  {
    if StartsWith(hostname, "www.") then hostname[4..] else hostname
  }

  /**
   * The site name `getWebsiteName` derives from a hostname: without a
   * leading `www.`, the second-to-last dot-separated label when there are at
   * least two, else the whole (stripped) hostname.
   */
  function WebsiteName(hostname: string): string {
    var host := StripWww(hostname);
    var parts := Split(host, '.');
    if |parts| >= 2 then parts[|parts| - 2] else host
  }

  /** One dot-separated part: `Split` gives a single part exactly when there is no dot. */
  lemma {:induction false} SinglePartHasNoDot(s: string)
    requires |Split(s, '.')| == 1
    ensures '.' !in s
  {
    SplitJoin(s, '.');
    assert Join(Split(s, '.'), ".") == Split(s, '.')[0];
  }

  /**
   * The site name is one label of the stripped hostname: it has no dot, it
   * is the second-to-last part when there are two or more, and the whole
   * stripped hostname when there is one.
   */
  lemma {:induction false} WebsiteNameIsLabel(hostname: string)
    ensures '.' !in WebsiteName(hostname)
    ensures var parts := Split(StripWww(hostname), '.');
      && (|parts| >= 2 ==> WebsiteName(hostname) == parts[|parts| - 2])
      && (|parts| == 1 ==> WebsiteName(hostname) == StripWww(hostname))
    ensures WebsiteName(hostname) in Split(StripWww(hostname), '.')
  {
    var host := StripWww(hostname);
    var parts := Split(host, '.');
    if |parts| == 1 {
      SinglePartHasNoDot(host);
      SplitJoin(host, '.');
      assert Join(parts, ".") == parts[0];
    }
  }
}
