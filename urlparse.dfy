/** The part of Python's `urllib.parse` the extractor depends on:
    `urlsplit` (which `urlparse` calls; the path parameters `urlparse` also
    splits off are never read), the `is_url` test built on it, and
    `parse_qs`. Before splitting, `urlsplit` strips leading C0 control
    characters and spaces and removes every tab, carriage return and line
    feed. The split follows the generic syntax of section 3 of
    RFC 3986 as Python applies it: a scheme before the first ':', then a
    network location after "//" up to the first '/', '?' or '#', then the
    path, the query after the first '?' and the fragment after the first
    '#'. */
module UrlParse {
  import opened Wrappers
  import opened Strings

  /** The five components `urlsplit` returns. */
  datatype SplitUrl = SplitUrl(scheme: string, netloc: string, path: string, query: string, fragment: string)

  /** The ValueError `urlsplit` raises for a network location with one
      square bracket but not the other ("Invalid IPv6 URL"). */
  datatype UrlError = InvalidIpv6Url

  predicate IsSchemeChar(c: char) {
    IsAsciiLetter(c) || IsAsciiDigit(c) || c == '+' || c == '-' || c == '.'
  }

  /** A scheme `urlsplit` accepts: an ASCII letter followed by letters,
      digits, '+', '-' or '.'. */
  predicate ValidScheme(s: string) {
    |s| > 0 && IsAsciiLetter(s[0]) && forall i :: 0 <= i < |s| ==> IsSchemeChar(s[i])
  }

  /** The characters that end a network location. */
  const NetlocEnd: set<char> := {'/', '?', '#'}

  // ---------------------------------------------------------------------
  // Cleaning: what urlsplit does to its input before splitting it
  // ---------------------------------------------------------------------

  /** The characters `urlsplit` strips from the front of its input: the
      C0 controls and the space. */
  predicate IsC0OrSpace(c: char) {
    c as int <= 0x20
  }

  /** Tab, carriage return and line feed, which `urlsplit` removes
      wherever they occur. */
  const Unsafe: set<char> := {'\t', '\r', '\n'}

  /** `lstrip` of the C0 controls and the space: the longest suffix of
      `s` that does not start with one. */
  function StripLeading(s: string): (r: string)
    ensures |r| <= |s| && r == s[|s| - |r|..]
    ensures forall j :: 0 <= j < |s| - |r| ==> IsC0OrSpace(s[j])
    ensures |r| > 0 ==> !IsC0OrSpace(r[0])
    decreases |s|
  {
    if |s| > 0 && IsC0OrSpace(s[0]) then
      var r := StripLeading(s[1..]);
      assert s[1..][|s| - 1 - |r|..] == s[|s| - |r|..];
      assert forall j :: 1 <= j < |s| - |r| ==> s[j] == s[1..][j - 1];
      r
    else s
  }

  /** Every tab, carriage return and line feed removed, the rest kept in
      order. */
  function RemoveUnsafe(s: string): (r: string)
    ensures |r| <= |s|
    ensures (forall i :: 0 <= i < |s| ==> s[i] !in Unsafe) ==> r == s
    decreases |s|
  {
    if |s| == 0 then s
    else
      assert s == [s[0]] + s[1..];
      (if s[0] in Unsafe then "" else [s[0]]) + RemoveUnsafe(s[1..])
  }

  /** The characters kept are exactly the safe ones of `s`. */
  lemma {:induction false} RemoveUnsafeChars(s: string)
    ensures forall c :: c in RemoveUnsafe(s) <==> c in s && c !in Unsafe
    decreases |s|
  {
    if |s| > 0 {
      assert s == [s[0]] + s[1..];
      RemoveUnsafeChars(s[1..]);
    }
  }

  /** The text `urlsplit` actually splits. */
  function Clean(url: string): string {
    RemoveUnsafe(StripLeading(url))
  }

  lemma SafeHeadKept(s: string)
    requires |s| > 0 && s[0] !in Unsafe
    ensures |RemoveUnsafe(s)| > 0 && RemoveUnsafe(s)[0] == s[0]
  {
    assert s == [s[0]] + s[1..];
    assert RemoveUnsafe(s) == [s[0]] + RemoveUnsafe(s[1..]);
  }

  /** A cleaned text holds only characters of the input, none of them
      unsafe, and starts with neither a control nor a space. */
  lemma CleanChars(url: string)
    ensures forall c :: c in Clean(url) ==> c in url && c !in Unsafe
    ensures |Clean(url)| > 0 ==> !IsC0OrSpace(Clean(url)[0])
  {
    var t := StripLeading(url);
    SliceCharsIn(url, |url| - |t|, |url|);
    RemoveUnsafeChars(t);
    if |t| > 0 {
      SafeHeadKept(t);
    }
  }

  lemma {:induction false} RemoveUnsafeAppend(a: string, b: string)
    ensures RemoveUnsafe(a + b) == RemoveUnsafe(a) + RemoveUnsafe(b)
    decreases |a|
  {
    if |a| == 0 {
      assert a + b == b;
    } else {
      assert (a + b)[0] == a[0];
      assert (a + b)[1..] == a[1..] + b;
      RemoveUnsafeAppend(a[1..], b);
    }
  }

  lemma {:induction false} StripLeadingAppend(a: string, b: string)
    requires |b| > 0 && !IsC0OrSpace(b[0])
    ensures StripLeading(a + b) == StripLeading(a) + b
    decreases |a|
  {
    if |a| == 0 {
      assert a + b == b;
    } else {
      assert (a + b)[0] == a[0];
      assert (a + b)[1..] == a[1..] + b;
      if IsC0OrSpace(a[0]) {
        StripLeadingAppend(a[1..], b);
      }
    }
  }

  /** Controls and spaces in front of a text are stripped away. */
  lemma {:induction false} StripLeadingSpace(ws: string, s: string)
    requires forall i :: 0 <= i < |ws| ==> IsC0OrSpace(ws[i])
    ensures StripLeading(ws + s) == StripLeading(s)
    decreases |ws|
  {
    if |ws| == 0 {
      assert ws + s == s;
    } else {
      assert (ws + s)[0] == ws[0];
      assert (ws + s)[1..] == ws[1..] + s;
      StripLeadingSpace(ws[1..], s);
    }
  }

  /** Cleaning a cleaned text changes nothing. */
  lemma CleanIdempotent(url: string)
    ensures Clean(Clean(url)) == Clean(url)
  {
    var c := Clean(url);
    CleanChars(url);
    assert StripLeading(c) == c;
    assert forall i :: 0 <= i < |c| ==> c[i] !in Unsafe;
  }

  // ---------------------------------------------------------------------
  // Splitting the cleaned text
  // ---------------------------------------------------------------------

  /** Splits off the scheme: the text before the first ':' when it is a
      valid scheme (returned lower-cased), otherwise no scheme at all. */
  function SplitScheme(url: string): (string, string) {
    var i := IndexOf(url, ':');
    if i < |url| && ValidScheme(url[..i]) then (Lower(url[..i]), url[i + 1..]) else ("", url)
  }

  /** Splits off the network location that follows "//". */
  function SplitNetloc(rest: string): (string, string) {
    if StartsWith(rest, "//") then
      var d := IndexOfAny(rest[2..], NetlocEnd);
      (rest[2..][..d], rest[2..][d..])
    else ("", rest)
  }

  /** The split of a cleaned text. The network location holds none of
      '/', '?' and '#', the path neither '?' nor '#', and the query no
      '#'. */
  function SplitClean(url: string): (r: Result<SplitUrl, UrlError>)
    ensures r.Ok? ==> forall i :: 0 <= i < |r.value.netloc| ==> r.value.netloc[i] !in NetlocEnd
    ensures r.Ok? ==> '?' !in r.value.path && '#' !in r.value.path && '#' !in r.value.query
  {
    var (scheme, rest) := SplitScheme(url);
    var (netloc, tail) := SplitNetloc(rest);
    if ('[' in netloc) != (']' in netloc) then Err(InvalidIpv6Url)
    else
      var h := IndexOf(tail, '#');
      var beforeFragment := tail[..h];
      var fragment := if h < |tail| then tail[h + 1..] else "";
      var q := IndexOf(beforeFragment, '?');
      var query := if q < |beforeFragment| then beforeFragment[q + 1..] else "";
      Ok(SplitUrl(scheme, netloc, beforeFragment[..q], query, fragment))
  }

  /** `urllib.parse.urlsplit(url)`: the cleaned text, split at its
      delimiters. */
  function UrlSplit(url: string): (r: Result<SplitUrl, UrlError>)
    ensures r.Ok? ==> forall i :: 0 <= i < |r.value.netloc| ==> r.value.netloc[i] !in NetlocEnd
    ensures r.Ok? ==> '?' !in r.value.path && '#' !in r.value.path && '#' !in r.value.query
  {
    SplitClean(Clean(url))
  }

  /** `is_url(url)`: parsing succeeds and gives both a non-empty scheme
      and a non-empty network location. A parse error makes it false, and
      so does None, which `urlparse` reads as an empty text. */
  predicate IsUrl(url: Option<string>)
    ensures url.None? ==> !IsUrl(url)
    ensures IsUrl(url) ==> url.Some? && UrlSplit(url.value).Ok?
  {
    match url
    case None => false
    case Some(s) =>
      var parts := UrlSplit(s);
      parts.Ok? && parts.value.scheme != "" && parts.value.netloc != ""
  }

  /** The query component of an optional URL; None parses as empty. */
  function QueryOf(url: Option<string>): Result<string, UrlError> {
    match url
    case None => Ok("")
    case Some(s) =>
      var parts := UrlSplit(s);
      if parts.Ok? then Ok(parts.value.query) else Err(parts.error)
  }

  /** A network location as the generic syntax has it: non-empty, free of
      the characters that end it, and with square brackets in pairs. */
  predicate ValidNetloc(host: string) {
    && |host| > 0
    && (forall i :: 0 <= i < |host| ==> host[i] !in NetlocEnd && host[i] !in Unsafe)
    && (('[' in host) == (']' in host))
  }

  lemma NoColonInScheme(s: string)
    requires ValidScheme(s)
    ensures IndexOfAny(s, {':'}) == |s|
  {
  }

  lemma SplitSchemeOf(scheme: string, after: string)
    requires ValidScheme(scheme)
    ensures SplitScheme(scheme + ":" + after) == (Lower(scheme), after)
  {
    var url := scheme + ":" + after;
    NoColonInScheme(scheme);
    IndexOfAnyAppend(scheme, ":" + after, {':'});
    assert url == scheme + (":" + after);
    assert IndexOf(url, ':') == |scheme|;
    assert url[..|scheme|] == scheme;
    assert url[|scheme| + 1..] == after;
  }

  lemma SplitNetlocOf(host: string, rest: string)
    requires ValidNetloc(host)
    requires |rest| == 0 || rest[0] in NetlocEnd
    ensures SplitNetloc("//" + host + rest) == (host, rest)
  {
    var after := "//" + host + rest;
    assert after[2..] == host + rest;
    IndexOfAnyAppend(host, rest, NetlocEnd);
    assert IndexOfAny(host + rest, NetlocEnd) == |host|;
    assert (host + rest)[..|host|] == host;
    assert (host + rest)[|host|..] == rest;
  }

  lemma CleanShapeSplits(scheme: string, host: string, rest: string)
    requires ValidScheme(scheme)
    requires ValidNetloc(host)
    requires |rest| == 0 || rest[0] in NetlocEnd
    ensures SplitClean(scheme + "://" + host + rest).Ok?
    ensures SplitClean(scheme + "://" + host + rest).value.scheme == Lower(scheme)
    ensures SplitClean(scheme + "://" + host + rest).value.netloc == host
  {
    var after := "//" + host + rest;
    assert scheme + "://" + host + rest == scheme + ":" + after;
    SplitSchemeOf(scheme, after);
    SplitNetlocOf(host, rest);
  }

  /** Cleaning "scheme://host" followed by `rest` only cleans `rest`. */
  lemma CleanShape(scheme: string, host: string, rest: string)
    requires ValidScheme(scheme)
    requires ValidNetloc(host)
    ensures Clean(scheme + "://" + host + rest) == scheme + "://" + host + RemoveUnsafe(rest)
  {
    var head := scheme + "://" + host;
    assert scheme + "://" + host + rest == head + rest;
    forall i | 0 <= i < |head|
      ensures head[i] !in Unsafe
    {
      if i < |scheme| {
        assert head[i] == scheme[i] && IsSchemeChar(scheme[i]);
      } else if i >= |scheme| + 3 {
        assert head[i] == host[i - |scheme| - 3];
      }
    }
    assert (head + rest)[0] == scheme[0];
    RemoveUnsafeAppend(head, rest);
  }

  /** Every text of the shape scheme "://" netloc, followed by nothing or
      by a path, query or fragment, is a URL, with that scheme and netloc. */
  lemma UrlShapeIsUrl(scheme: string, host: string, rest: string)
    requires ValidScheme(scheme)
    requires ValidNetloc(host)
    requires |rest| == 0 || rest[0] in NetlocEnd
    ensures UrlSplit(scheme + "://" + host + rest).Ok?
    ensures UrlSplit(scheme + "://" + host + rest).value.scheme == Lower(scheme)
    ensures UrlSplit(scheme + "://" + host + rest).value.netloc == host
    ensures IsUrl(Some(scheme + "://" + host + rest))
  {
    var text := scheme + "://" + host + rest;
    var kept := RemoveUnsafe(rest);
    assert Clean(text) == scheme + "://" + host + kept by {
      CleanShape(scheme, host, rest);
    }
    assert |kept| == 0 || kept[0] in NetlocEnd by {
      if |rest| > 0 {
        SafeHeadKept(rest);
      }
    }
    CleanShapeSplits(scheme, host, kept);
  }

  lemma CleanSplitShape(s: string) returns (i: nat)
    requires SplitClean(s).Ok? && SplitClean(s).value.scheme != "" && SplitClean(s).value.netloc != ""
    ensures i + 3 < |s|
    ensures ValidScheme(s[..i])
    ensures s[i..i + 3] == "://"
    ensures s[i + 3] !in NetlocEnd
  {
    i := IndexOf(s, ':');
    var rest := s[i + 1..];
    assert SplitScheme(s) == (Lower(s[..i]), rest);
    var d := IndexOfAny(rest[2..], NetlocEnd);
    assert d > 0;
    assert rest[2..][0] == s[i + 3];
    assert s[i..i + 3] == [s[i]] + rest[..2];
  }

  /** Conversely, once cleaned, a URL starts with a valid scheme, "://"
      and a first network-location character. */
  lemma IsUrlShape(url: string) returns (i: nat)
    requires IsUrl(Some(url))
    ensures var s := Clean(url);
            && i + 3 < |s|
            && ValidScheme(s[..i])
            && s[i..i + 3] == "://"
            && s[i + 3] !in NetlocEnd
  {
    i := CleanSplitShape(Clean(url));
  }

  /** Every URL holds a ':'. */
  lemma UrlHasColon(s: string)
    ensures IsUrl(Some(s)) ==> ':' in s
  {
    if IsUrl(Some(s)) {
      var i := IsUrlShape(s);
      var c := Clean(s);
      assert c[i] == c[i..i + 3][0];
      CleanChars(s);
    }
  }

  lemma NotAUrl()
    ensures !IsUrl(Some("not-a-url"))
  {
    var s := "not-a-url";
    assert forall j :: 0 <= j < |s| ==> s[j] != ':';
    UrlHasColon(s);
  }

  /** "https://example.com/wms" is a URL. */
  lemma ExampleServiceUrl()
    ensures IsUrl(Some("https" + "://" + "example.com" + "/wms"))
  {
    var scheme, host := "https", "example.com";
    assert ValidScheme(scheme);
    assert forall i :: 0 <= i < |host| ==> host[i] !in NetlocEnd && host[i] !in Unsafe;
    assert '[' !in host && ']' !in host;
    UrlShapeIsUrl(scheme, host, "/wms");
  }

  /** Controls and spaces in front of a text change nothing. */
  lemma LeadingSpaceIgnored(ws: string, s: string)
    requires forall i :: 0 <= i < |ws| ==> IsC0OrSpace(ws[i])
    ensures UrlSplit(ws + s) == UrlSplit(s)
  {
    StripLeadingSpace(ws, s);
  }

  lemma {:induction false} OnlyUnsafeRemoved(tail: string)
    requires forall i :: 0 <= i < |tail| ==> tail[i] in Unsafe
    ensures RemoveUnsafe(tail) == ""
    decreases |tail|
  {
    if |tail| > 0 {
      OnlyUnsafeRemoved(tail[1..]);
    }
  }

  /** Controls and spaces in front of a text, and tabs and line breaks
      after it, change nothing. */
  lemma SurroundingWhitespaceIgnored(ws: string, u: string, tail: string)
    requires forall i :: 0 <= i < |ws| ==> IsC0OrSpace(ws[i])
    requires |u| > 0 && !IsC0OrSpace(u[0])
    requires forall i :: 0 <= i < |tail| ==> tail[i] in Unsafe
    ensures UrlSplit(ws + u + tail) == UrlSplit(u)
  {
    var t := u + tail;
    assert ws + u + tail == ws + t;
    StripLeadingSpace(ws, t);
    assert t[0] == u[0];
    assert StripLeading(t) == t;
    assert StripLeading(u) == u;
    RemoveUnsafeAppend(u, tail);
    OnlyUnsafeRemoved(tail);
    assert RemoveUnsafe(t) == RemoveUnsafe(u);
    assert Clean(ws + t) == Clean(u);
  }

  /** A URL written on its own indented line, with controls or spaces in
      front and a line break after it, is still a URL. */
  lemma PaddedUrlIsUrl(ws: string, u: string, tail: string)
    requires forall i :: 0 <= i < |ws| ==> IsC0OrSpace(ws[i])
    requires |u| > 0 && !IsC0OrSpace(u[0])
    requires forall i :: 0 <= i < |tail| ==> tail[i] in Unsafe
    requires IsUrl(Some(u))
    ensures IsUrl(Some(ws + u + tail))
  {
    SurroundingWhitespaceIgnored(ws, u, tail);
  }

  // ---------------------------------------------------------------------
  // The query of a URL "base?query"
  // ---------------------------------------------------------------------

  /** Whatever scheme is split off "base?q", the rest still ends in "?q". */
  lemma SchemeKeepsQuery(base: string, q: string) returns (k: nat)
    requires '?' !in base
    ensures k <= |base|
    ensures SplitScheme(base + "?" + q).1 == base[k..] + "?" + q
  {
    var url := base + "?" + q;
    assert url == base + ("?" + q);
    var i := IndexOf(url, ':');
    IndexOfAnyAppend(base, "?" + q, {':'});
    if i < |base| {
      assert url[..i] == base[..i];
      if ValidScheme(url[..i]) {
        k := i + 1;
        assert url[i + 1..] == base[k..] + "?" + q;
      } else {
        k := 0;
      }
    } else {
      assert i != |base| by {
        assert url[|base|] == '?';
      }
      if i < |url| {
        assert url[..i][|base|] == '?';
        assert !IsSchemeChar(url[..i][|base|]);
      }
      k := 0;
    }
  }

  lemma SliceCharsIn(a: string, i: nat, j: nat)
    requires i <= j <= |a|
    ensures forall c :: c in a[i..j] ==> c in a
  {
    forall c | c in a[i..j]
      ensures c in a
    {
      var t :| 0 <= t < j - i && a[i..j][t] == c;
      assert a[i + t] == c;
    }
  }

  /** Splitting the network location off "a?q" stops at the '?' at the
      latest: the netloc comes from `a` and the rest still ends in "?q". */
  lemma NetlocKeepsQuery(a: string, q: string) returns (m: nat)
    requires '?' !in a
    ensures m <= |a|
    ensures SplitNetloc(a + "?" + q).1 == a[m..] + "?" + q
    ensures forall c :: c in SplitNetloc(a + "?" + q).0 ==> c in a
  {
    var rest := a + "?" + q;
    if StartsWith(rest, "//") {
      assert rest[|a|] == '?';
      assert |a| >= 2;
      assert rest[2..] == a[2..] + ("?" + q);
      IndexOfAnyAppend(a[2..], "?" + q, NetlocEnd);
      var d := IndexOfAny(rest[2..], NetlocEnd);
      assert d <= |a[2..]|;
      m := 2 + d;
      assert rest[2..][d..] == a[m..] + "?" + q;
      assert rest[2..][..d] == a[2..m];
      SliceCharsIn(a, 2, m);
    } else {
      m := 0;
    }
  }

  /** In "a?q", with no '#' anywhere and no '?' in `a`, the fragment is
      empty and the query is `q`. */
  lemma QueryOfTail(a: string, q: string)
    requires '?' !in a && '#' !in a && '#' !in q
    ensures IndexOf(a + "?" + q, '#') == |a + "?" + q|
    ensures IndexOf(a + "?" + q, '?') == |a|
    ensures (a + "?" + q)[|a| + 1..] == q
  {
    var tail := a + "?" + q;
    forall j | 0 <= j < |tail|
      ensures tail[j] != '#'
    {
      if j < |a| {
        assert tail[j] == a[j];
      } else if j > |a| {
        assert tail[j] == q[j - |a| - 1];
      }
    }
    assert tail == a + ("?" + q);
    IndexOfAnyAppend(a, "?" + q, {'?'});
  }

  lemma CleanQueryAfterMark(base: string, q: string)
    requires '?' !in base && '#' !in base && '[' !in base && ']' !in base
    requires '#' !in q
    ensures SplitClean(base + "?" + q).Ok? && SplitClean(base + "?" + q).value.query == q
  {
    var url := base + "?" + q;
    var k := SchemeKeepsQuery(base, q);
    var rest := SplitScheme(url).1;
    var m := NetlocKeepsQuery(base[k..], q);
    var (netloc, tail) := SplitNetloc(rest);
    var a := base[k..][m..];
    assert tail == a + "?" + q;
    assert '[' !in netloc && ']' !in netloc;
    assert a == base[k + m..];
    QueryOfTail(a, q);
    assert tail[..|tail|] == tail;
  }

  /** The query of "base?q" is `q` with its tabs and line breaks removed,
      when `base` holds no '?', no '#' and no square bracket, and `q`
      holds no '#'. */
  lemma QueryAfterMark(base: string, q: string)
    requires '?' !in base && '#' !in base && '[' !in base && ']' !in base
    requires '#' !in q
    ensures QueryOf(Some(base + "?" + q)) == Ok(RemoveUnsafe(q))
  {
    CleanAround(base, '?', q);
    CleanChars(base);
    RemoveUnsafeChars(q);
    QueryOfCleaned(base + "?" + q, Clean(base), RemoveUnsafe(q));
  }

  lemma QueryOfCleaned(url: string, base: string, q: string)
    requires Clean(url) == base + "?" + q
    requires '?' !in base && '#' !in base && '[' !in base && ']' !in base
    requires '#' !in q
    ensures QueryOf(Some(url)) == Ok(q)
  {
    CleanQueryAfterMark(base, q);
  }

  /** Cleaning `base`, a delimiter and `q` cleans `base` and `q` apart. */
  lemma CleanAround(base: string, mark: char, q: string)
    requires mark !in Unsafe && !IsC0OrSpace(mark)
    ensures Clean(base + [mark] + q) == Clean(base) + [mark] + RemoveUnsafe(q)
  {
    var m := [mark];
    var url := base + m + q;
    assert url == base + (m + q);
    assert (m + q)[0] == mark;
    StripLeadingAppend(base, m + q);
    var b := StripLeading(base);
    assert StripLeading(url) == (b + m) + q;
    RemoveUnsafeAppend(b + m, q);
    RemoveUnsafeAppend(b, m);
    assert RemoveUnsafe(m) == m;
  }

  // ---------------------------------------------------------------------
  // parse_qs
  // ---------------------------------------------------------------------

  /** One "name=value" field, split at its first '='. A field without '='
      or with an empty value is dropped, as `parse_qs` does by default
      (keep_blank_values false, strict_parsing false). */
  function ParseField(field: string): Option<(string, string)> {
    var e := IndexOf(field, '=');
    if e + 1 < |field| then Some((field[..e], field[e + 1..])) else None
  }

  function ParseFields(fields: seq<string>): seq<(string, string)> {
    if |fields| == 0 then []
    else
      match ParseField(fields[0])
      case Some(pair) => [pair] + ParseFields(fields[1..])
      case None => ParseFields(fields[1..])
  }

  /** `parse_qsl(qs)`: the (name, value) pairs of the '&'-separated fields,
      in order. */
  function ParseQsl(qs: string): seq<(string, string)> {
    ParseFields(Split(qs, '&'))
  }

  /** The values given for `name`, in order. */
  function ValuesOf(pairs: seq<(string, string)>, name: string): (vs: seq<string>)
    ensures |vs| <= |pairs|
  {
    if |pairs| == 0 then []
    else
      var init := ValuesOf(pairs[..|pairs| - 1], name);
      if pairs[|pairs| - 1].0 == name then init + [pairs[|pairs| - 1].1] else init
  }

  /** The dictionary `parse_qs` builds: every name that occurs, mapped to
      all of its values in order. */
  function Group(pairs: seq<(string, string)>): (m: map<string, seq<string>>)
    ensures forall name :: name in m <==> ValuesOf(pairs, name) != []
    ensures forall name :: name in m ==> m[name] == ValuesOf(pairs, name)
  {
    if |pairs| == 0 then map[]
    else
      var m := Group(pairs[..|pairs| - 1]);
      var (name, value) := pairs[|pairs| - 1];
      m[name := (if name in m then m[name] else []) + [value]]
  }

  /** `parse_qs(qs)`: every name of a kept field, mapped to all of its
      values in the order they occur. */
  function ParseQs(qs: string): (m: map<string, seq<string>>)
    ensures forall name :: name in m <==> ValuesOf(ParseQsl(qs), name) != []
    ensures forall name :: name in m ==> m[name] == ValuesOf(ParseQsl(qs), name)
  {
    Group(ParseQsl(qs))
  }

  // ---------------------------------------------------------------------
  // The inverse: writing pairs out as a query string
  // ---------------------------------------------------------------------

  /** A pair that survives a round trip: the name holds neither '&' nor
      '=', the value is non-empty and holds no '&'. */
  predicate PlainPair(pair: (string, string)) {
    '&' !in pair.0 && '=' !in pair.0 && '&' !in pair.1 && |pair.1| > 0
  }

  function FormatFields(pairs: seq<(string, string)>): (fields: seq<string>)
    ensures |fields| == |pairs|
  {
    if |pairs| == 0 then [] else [pairs[0].0 + "=" + pairs[0].1] + FormatFields(pairs[1..])
  }

  /** "name=value" fields joined with '&'. */
  function FormatQuery(pairs: seq<(string, string)>): string {
    if |pairs| == 0 then "" else Join(FormatFields(pairs), '&')
  }

  lemma ParseFormattedField(pair: (string, string))
    requires PlainPair(pair)
    ensures ParseField(pair.0 + "=" + pair.1) == Some(pair)
  {
    var field := pair.0 + "=" + pair.1;
    assert field == pair.0 + ("=" + pair.1);
    IndexOfAnyAppend(pair.0, "=" + pair.1, {'='});
    assert IndexOf(field, '=') == |pair.0|;
    assert field[..|pair.0|] == pair.0;
    assert field[|pair.0| + 1..] == pair.1;
  }

  lemma {:induction false} ParseFormattedFields(pairs: seq<(string, string)>)
    requires forall k :: 0 <= k < |pairs| ==> PlainPair(pairs[k])
    ensures ParseFields(FormatFields(pairs)) == pairs
    decreases |pairs|
  {
    if |pairs| > 0 {
      ParseFormattedField(pairs[0]);
      ParseFormattedFields(pairs[1..]);
      assert FormatFields(pairs)[1..] == FormatFields(pairs[1..]);
      assert [pairs[0]] + pairs[1..] == pairs;
    }
  }

  /** A query written from one pair is "name=value". */
  lemma FormatSinglePair(name: string, value: string)
    ensures FormatQuery([(name, value)]) == name + "=" + value
  {
    assert FormatFields([(name, value)]) == [name + "=" + value];
  }

  /** Reading back a written query gives the same pairs in the same order. */
  lemma QueryRoundTrip(pairs: seq<(string, string)>)
    requires forall k :: 0 <= k < |pairs| ==> PlainPair(pairs[k])
    ensures ParseQsl(FormatQuery(pairs)) == pairs
  {
    if |pairs| == 0 {
      assert Split("", '&') == [""];
      assert ParseField("") == None;
    } else {
      var fields := FormatFields(pairs);
      forall k | 0 <= k < |fields|
        ensures '&' !in fields[k]
      {
        FieldAt(pairs, k);
      }
      SplitJoin(fields, '&');
      ParseFormattedFields(pairs);
    }
  }

  lemma {:induction false} FieldAt(pairs: seq<(string, string)>, k: nat)
    requires k < |pairs|
    requires forall j :: 0 <= j < |pairs| ==> PlainPair(pairs[j])
    ensures FormatFields(pairs)[k] == pairs[k].0 + "=" + pairs[k].1
    ensures '&' !in FormatFields(pairs)[k]
    decreases k
  {
    if k > 0 {
      FieldAt(pairs[1..], k - 1);
    }
  }
}
