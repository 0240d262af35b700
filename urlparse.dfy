/** The part of Python's `urllib.parse.urlparse` that `upload_document`
    depends on: splitting a URL into scheme, network location, path, params,
    query and fragment, the way `urlsplit` and `urlparse` do it. */
module UrlParse {
  import opened Text

  datatype ParseResult = ParseResult(
    scheme: string, netloc: string, path: string, params: string, query: string, fragment: string)

  /** The position of the first character of `s` that is in `cs`, or |s| when there is none. */
  function FirstIndex(s: string, cs: set<char>): (r: nat)
    ensures r <= |s|
    ensures forall i :: 0 <= i < r ==> s[i] !in cs
    ensures r < |s| ==> s[r] in cs
  {
    if s == [] || s[0] in cs then 0 else 1 + FirstIndex(s[1..], cs)
  }

  /** The position of the last `c` in `s`, or -1 (Python's `str.rfind`). */
  function LastIndex(s: string, c: char): (r: int)
    ensures -1 <= r < |s|
    ensures forall i :: r < i < |s| ==> s[i] != c
    ensures r >= 0 ==> s[r] == c
  {
    if s == [] then -1 else if s[|s| - 1] == c then |s| - 1 else LastIndex(s[..|s| - 1], c)
  }

  /** The control characters and space that `urlsplit` strips from the front (U+0000 to U+0020). */
  predicate IsC0OrSpace(c: char) {
    c <= ' '
  }

  function StripC0Leading(s: string): (r: string)
    ensures |r| <= |s| && r == s[|s| - |r|..]
    ensures r != [] ==> !IsC0OrSpace(r[0])
  {
    if s != [] && IsC0OrSpace(s[0]) then StripC0Leading(s[1..]) else s
  }

  /** Tab, carriage return and line feed, which `urlsplit` deletes wherever they occur. */
  predicate IsUnsafe(c: char) {
    c == '\t' || c == '\r' || c == '\n'
  }

  function RemoveUnsafe(s: string): (r: string)
    ensures forall i :: 0 <= i < |r| ==> !IsUnsafe(r[i])
    ensures |r| <= |s|
  {
    if s == [] then []
    else if IsUnsafe(s[0]) then RemoveUnsafe(s[1..])
    else [s[0]] + RemoveUnsafe(s[1..])
  }

  predicate IsAsciiLetter(c: char) {
    'a' <= c <= 'z' || 'A' <= c <= 'Z'
  }

  /** `scheme_chars`: the characters a scheme may consist of. */
  predicate IsSchemeChar(c: char) {
    IsAsciiLetter(c) || IsDigit(c) || c == '+' || c == '-' || c == '.'
  }

  function LowerAscii(s: string): (r: string)
    ensures |r| == |s|
  {
    if s == [] then []
    else [if 'A' <= s[0] <= 'Z' then (s[0] as int + 32) as char else s[0]] + LowerAscii(s[1..])
  }

  /** The schemes in `uses_params`, for which `urlparse` cuts `;params` off the last path segment. */
  predicate UsesParams(scheme: string) {
    scheme in {"", "ftp", "hdl", "prospero", "http", "imap", "https", "shttp", "rtsp",
               "rtsps", "rtspu", "sip", "sips", "mms", "sftp", "tel"}
  }

  /** The scheme and the rest: a leading run of scheme characters that starts
      with a letter and ends at the first ':' is the scheme, lower-cased. */
  function SplitScheme(url: string): (r: (string, string))
    ensures |r.1| <= |url|
  {
    var i := FirstIndex(url, {':'});
    if 0 < i < |url| && IsAsciiLetter(url[0]) && forall k :: 0 <= k < i ==> IsSchemeChar(url[k])
    then (LowerAscii(url[..i]), url[i + 1..])
    else ("", url)
  }

  /** The rest follows the scheme's ':' and the scheme is the lower-cased
      text before it, or there is no scheme and the rest is the whole URL. */
  lemma SplitSchemeParts(url: string)
    ensures var (scheme, rest) := SplitScheme(url);
      && (scheme == "" ==> rest == url)
      && (scheme != "" ==>
            && |scheme| < |url| && url[|scheme|] == ':' && rest == url[|scheme| + 1..]
            && scheme == LowerAscii(url[..|scheme|]) && IsAsciiLetter(url[0])
            && forall k :: 0 <= k < |scheme| ==> IsSchemeChar(url[k]))
      && (scheme == "" ==>
            forall i :: 0 < i < |url| && url[i] == ':' && IsAsciiLetter(url[0]) ==>
              exists k :: 0 <= k < i && !IsSchemeChar(url[k]))
  {
    var j := FirstIndex(url, {':'});
    if SplitScheme(url).0 == "" {
      forall i | 0 < i < |url| && url[i] == ':' && IsAsciiLetter(url[0])
        ensures exists k :: 0 <= k < i && !IsSchemeChar(url[k])
      {
        if j < i {
          assert !IsSchemeChar(url[j]);
        } else {
          assert !(forall k :: 0 <= k < i ==> IsSchemeChar(url[k]));
        }
      }
    }
  }

  /** `_splitnetloc(url, 2)` applied when what follows the scheme starts with "//". */
  function SplitNetloc(url: string): (r: (string, string))
    ensures '/' !in r.0 && '?' !in r.0 && '#' !in r.0
  {
    if |url| >= 2 && url[..2] == "//" then
      var rest := url[2..];
      var d := FirstIndex(rest, {'/', '?', '#'});
      (rest[..d], rest[d..])
    else ("", url)
  }

  /** After "//", the network location and the rest make up the URL, and the
      rest starts at a '/', '?' or '#'; without "//" there is no network location. */
  lemma SplitNetlocParts(url: string)
    ensures var (netloc, rest) := SplitNetloc(url);
      && (|url| >= 2 && url[..2] == "//" ==>
            url[2..] == netloc + rest && (rest != [] ==> rest[0] in {'/', '?', '#'}))
      && (!(|url| >= 2 && url[..2] == "//") ==> netloc == "" && rest == url)
  {
  }

  /** `s.split(c, 1)` when `c` occurs in `s`, else `(s, "")`. */
  function SplitOnce(s: string, c: char): (r: (string, string))
    ensures c !in r.0
    ensures |r.0| <= |s| && r.0 == s[..|r.0|]
    ensures forall ch :: ch in r.0 ==> ch in s
  {
    var i := FirstIndex(s, {c});
    if i < |s| then (s[..i], s[i + 1..]) else (s, "")
  }

  /** Splitting at the first `c` and putting `c` back gives `s`; without a `c`
      everything is in the first part. */
  lemma SplitOnceParts(s: string, c: char)
    ensures var (before, after) := SplitOnce(s, c);
      && (c in s ==> s == before + [c] + after)
      && (c !in s ==> before == s && after == "")
  {
  }

  /** `_splitparams`: the params start at the first ';' of the last segment. */
  function SplitParams(path: string): (r: (string, string))
    ensures |r.0| <= |path| && r.0 == path[..|r.0|]
    ensures forall ch :: ch in r.0 ==> ch in path
  {
    var start := SegmentStart(path);
    var i := FirstIndex(path[start..], {';'});
    if start + i < |path| then (path[..start + i], path[start + i + 1..]) else (path, "")
  }

  /** Where `_splitparams` looks for ';': at the path's last '/', or at its start. */
  function SegmentStart(path: string): (start: nat)
    ensures start <= |path|
    ensures start == 0 || (start < |path| && path[start] == '/')
    ensures forall k :: start < k < |path| ==> path[k] != '/'
  {
    var slash := LastIndex(path, '/');
    if slash < 0 then 0 else slash
  }

  /** The params follow a ';' after the path's last '/', and there is a cut
      whenever such a ';' exists. */
  lemma SplitParamsParts(path: string)
    ensures var (p, params) := SplitParams(path);
      && ((params == "" && p == path) || path == p + [';'] + params)
      && '/' !in params
      && (';' in path[SegmentStart(path)..] ==> path == p + [';'] + params)
  {
    var start := SegmentStart(path);
    var i := FirstIndex(path[start..], {';'});
    if start + i < |path| {
      assert path[start + i] == path[start..][i] == ';';
      assert path == path[..start + i] + [';'] + path[start + i + 1..];
    }
  }

  /** The cut is at the first ';' after the path's last '/'. */
  lemma SplitParamsFirstCut(path: string)
    ensures var start := SegmentStart(path);
      start <= |SplitParams(path).0| && ';' !in SplitParams(path).0[start..]
  {
    var start := SegmentStart(path);
    var i := FirstIndex(path[start..], {';'});
    if start + i < |path| {
      assert SplitParams(path).0[start..] == path[start..][..i];
    } else {
      assert SplitParams(path).0[start..] == path[start..];
    }
  }

  /** `urlparse(url)` with its default arguments (fragments allowed, no default scheme). */
  function Parse(url: string): (r: ParseResult)
    ensures '?' !in r.path && '#' !in r.path
  {
    var cleaned := RemoveUnsafe(StripC0Leading(url));
    var (scheme, afterScheme) := SplitScheme(cleaned);
    var (netloc, afterNetloc) := SplitNetloc(afterScheme);
    var (beforeFragment, fragment) := SplitOnce(afterNetloc, '#');
    var (path, query) := SplitOnce(beforeFragment, '?');
    if UsesParams(scheme) && ';' in path then
      var (p, params) := SplitParams(path);
      ParseResult(scheme, netloc, p, params, query, fragment)
    else ParseResult(scheme, netloc, path, "", query, fragment)
  }
}
