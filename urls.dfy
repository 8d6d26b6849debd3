/**
 * Stand-ins for the two URL helpers the extension calls but does not define:
 * the framework's `Controller::join_links` and PHP's `urlencode`.
 * Links are strings; a link's path is everything before its first `?`.
 */
module Urls {
  import opened Wrappers

  /** Position of the first `c` in `s`, if there is one. */
  function IndexOf(s: string, c: char): (r: Option<nat>)
    ensures r.Some? ==> r.value < |s| && s[r.value] == c && c !in s[..r.value]
    ensures r.None? ==> c !in s
  {
    if s == [] then None
    else if s[0] == c then Some(0)
    else match IndexOf(s[1..], c)
      case None => None
      case Some(i) =>
        assert s[..i + 1] == [s[0]] + s[1..][..i];
        Some(i + 1)
  }

  /** `s` without its leading slashes (PHP `ltrim($s, '/')`). */
  function TrimLeadingSlashes(s: string): (r: string)
    ensures |r| <= |s| && r == s[|s| - |r|..]
    ensures r == [] || r[0] != '/'
    ensures forall i :: 0 <= i < |s| - |r| ==> s[i] == '/'
  {
    if s != [] && s[0] == '/' then TrimLeadingSlashes(s[1..]) else s
  }

  /** Splits a link at its first `?` into path and query string. */
  function SplitQuery(s: string): (r: (string, string))
    ensures '?' !in r.0
    ensures '?' in s ==> s == r.0 + "?" + r.1
    ensures '?' !in s ==> r == (s, "")
  {
    match IndexOf(s, '?')
    case None => (s, "")
    case Some(i) =>
      assert s == s[..i] + "?" + s[i + 1..];
      (s[..i], s[i + 1..])
  }

  /**
   * Joins two paths the way `join_links` joins its arguments: an empty part
   * is skipped, a slash is inserted when neither side has one at the seam,
   * and a doubled slash at the seam is collapsed.
   */
  function JoinPaths(a: string, b: string): (r: string)
    ensures |a| <= |r| && r[..|a|] == a
    ensures b == "" ==> r == a
    ensures a == "" ==> r == b
  {
    if b == "" then a
    else if a == "" then b
    else if a[|a| - 1] != '/' && b[0] != '/' then a + "/" + b
    else if a[|a| - 1] == '/' && b[0] == '/' then a + TrimLeadingSlashes(b)
    else a + b
  }

  /** Query strings of the joined links, in argument order. */
  function JoinQueries(qa: string, qb: string): string
  {
    if qa == "" then qb else if qb == "" then qa else qa + "&" + qb
  }

  /**
   * `Controller::join_links(a, b)`: the paths are joined, the query strings
   * are collected and appended after a single `?`.
   */
  function JoinLinks(a: string, b: string): string
  {
    var (pa, qa) := SplitQuery(a);
    var (pb, qb) := SplitQuery(b);
    var path := JoinPaths(pa, pb);
    var query := JoinQueries(qa, qb);
    if query == "" then path else path + "?" + query
  }

  lemma {:induction false} JoinPathsNoQuestionMark(a: string, b: string)
    requires '?' !in a && '?' !in b
    ensures '?' !in JoinPaths(a, b)
  {
    if b != "" && a != "" && a[|a| - 1] == '/' && b[0] == '/' {
      var t := TrimLeadingSlashes(b);
      assert t == b[|b| - |t|..];
      assert forall i :: 0 <= i < |t| ==> t[i] == b[|b| - |t| + i];
    }
  }

  /** Splitting `path ? query` gives back the path when the path has no `?`. */
  lemma SplitQueryOfJoined(path: string, query: string)
    requires '?' !in path
    ensures SplitQuery(path + "?" + query) == (path, query)
  {
    var s := path + "?" + query;
    assert s[|path|] == '?';
    assert s[..|path|] == path;
  }

  /** The path of a joined link is the join of the two paths. */
  lemma {:induction false} JoinLinksPath(a: string, b: string)
    ensures SplitQuery(JoinLinks(a, b)).0 == JoinPaths(SplitQuery(a).0, SplitQuery(b).0)
    ensures SplitQuery(JoinLinks(a, b)).1 == JoinQueries(SplitQuery(a).1, SplitQuery(b).1)
  {
    var (pa, qa) := SplitQuery(a);
    var (pb, qb) := SplitQuery(b);
    JoinPathsNoQuestionMark(pa, pb);
    var path := JoinPaths(pa, pb);
    if JoinQueries(qa, qb) != "" {
      SplitQueryOfJoined(path, JoinQueries(qa, qb));
    }
  }

  /** Links without query strings are joined as paths. */
  lemma JoinLinksPlain(a: string, b: string)
    requires '?' !in a && '?' !in b
    ensures JoinLinks(a, b) == JoinPaths(a, b)
  {
    assert SplitQuery(a) == (a, "") && SplitQuery(b) == (b, "");
  }

  /** A link joined after `prefix` starts with it, when `prefix` has no query string. */
  lemma JoinLinksStartsWith(prefix: string, link: string)
    requires '?' !in prefix
    ensures |prefix| <= |JoinLinks(prefix, link)|
    ensures JoinLinks(prefix, link)[..|prefix|] == prefix
  {
    assert SplitQuery(prefix) == (prefix, "");
  }

  /** A query-only argument leaves the path of the link alone. */
  lemma JoinLinksQueryOnly(link: string, query: string)
    ensures SplitQuery(JoinLinks(link, "?" + query)).0 == SplitQuery(link).0
    ensures SplitQuery(JoinLinks(link, "?" + query)).1 == JoinQueries(SplitQuery(link).1, query)
  {
    SplitQueryOfJoined("", query);
    assert "" + "?" + query == "?" + query;
    JoinLinksPath(link, "?" + query);
  }

  // ---- urlencode ----

  /** The characters PHP's `urlencode` leaves as they are. */
  predicate IsUnreserved(c: char)
  {
    ('A' <= c <= 'Z') || ('a' <= c <= 'z') || ('0' <= c <= '9') || c == '-' || c == '_' || c == '.'
  }

  /** Characters that can appear in the output of `urlencode`. */
  predicate IsEncodedChar(c: char)
  {
    IsUnreserved(c) || c == '%' || c == '+'
  }

  /** The UTF-8 encoding of one scalar value, as byte values. */
  function Utf8Bytes(c: char): (r: seq<nat>)
    ensures 1 <= |r| <= 4
    ensures forall b <- r :: b < 256
  {
    var n := c as int;
    if n < 0x80 then [n]
    else if n < 0x800 then [0xC0 + n / 0x40, 0x80 + n % 0x40]
    else if n < 0x10000 then [0xE0 + n / 0x1000, 0x80 + (n / 0x40) % 0x40, 0x80 + n % 0x40]
    else [0xF0 + n / 0x40000, 0x80 + (n / 0x1000) % 0x40, 0x80 + (n / 0x40) % 0x40, 0x80 + n % 0x40]
  }

  function HexDigit(d: nat): (c: char)
    requires d < 16
    ensures IsUnreserved(c)
  {
    "0123456789ABCDEF"[d]
  }

  /** `%XX` for every byte, with upper-case hexadecimal digits. */
  function PercentEncode(bytes: seq<nat>): (r: string)
    requires forall b <- bytes :: b < 256
    ensures |r| == 3 * |bytes|
    ensures forall c <- r :: IsEncodedChar(c)
  {
    if bytes == [] then ""
    else
      assert bytes[0] in bytes && forall b <- bytes[1..] :: b in bytes;
      "%" + [HexDigit(bytes[0] / 16), HexDigit(bytes[0] % 16)] + PercentEncode(bytes[1..])
  }

  function UrlEncodeChar(c: char): string
  {
    if IsUnreserved(c) then [c]
    else if c == ' ' then "+"
    else PercentEncode(Utf8Bytes(c))
  }

  /** PHP `urlencode`: its output holds only unreserved characters, `%` and `+`. */
  function UrlEncode(s: string): (r: string)
    ensures forall c <- r :: IsEncodedChar(c)
  {
    if s == "" then "" else UrlEncodeChar(s[0]) + UrlEncode(s[1..])
  }

  /** A string of unreserved characters, such as a locale code, is encoded as itself. */
  lemma {:induction false} UrlEncodeKeepsUnreserved(s: string)
    requires forall c <- s :: IsUnreserved(c)
    ensures UrlEncode(s) == s
  {
    if s != "" {
      assert s[0] in s;
      assert forall c <- s[1..] :: c in s;
      UrlEncodeKeepsUnreserved(s[1..]);
      assert s == [s[0]] + s[1..];
    }
  }
}
