/**
 The Link header as the Go handlers print it (auth/internal/handler/accounts.go) and as the admin UI reads
 it back (auth/internal/admin-ui/src/api/client.ts), section 5 of RFC 5988.
 */
module LinkHeader {
  import opened Wrappers
  import opened Paging

  // ---- Printing ----

  function Link(url: string, rel: string): string {
    "<" + url + ">; rel=\"" + rel + "\""
  }

  function Joined(links: seq<string>): string
    requires links != []
    decreases |links|
  {
    if |links| == 1 then links[0] else Joined(links[..|links| - 1]) + ", " + links[|links| - 1]
  }

  /** The header for the pages before and after, if there are any; next comes first. */
  function Header(next: Option<string>, prev: Option<string>): Option<string> {
    match (next, prev)
    case (None, None) => None
    case (Some(n), None) => Some(Link(n, "next"))
    case (None, Some(p)) => Some(Link(p, "prev"))
    case (Some(n), Some(p)) => Some(Link(n, "next") + ", " + Link(p, "prev"))
  }

  // ---- Reading: the two regular expressions of parseLinkHeader ----

  /** \s, which is also what trim removes. */
  predicate Space(c: char) {
    || '\U{0009}' <= c <= '\U{000D}' || c == ' ' || c == '\U{00A0}' || c == '\U{1680}'
    || '\U{2000}' <= c <= '\U{200A}' || c == '\U{2028}' || c == '\U{2029}' || c == '\U{202F}'
    || c == '\U{205F}' || c == '\U{3000}' || c == '\U{FEFF}'
  }

  /** \w. */
  predicate WordChar(c: char) {
    'a' <= c <= 'z' || 'A' <= c <= 'Z' || '0' <= c <= '9' || c == '_'
  }

  function SkipSpace(s: string): string {
    if s != "" && Space(s[0]) then SkipSpace(s[1..]) else s
  }

  function TrimEnd(s: string): string
    decreases |s|
  {
    if s != "" && Space(s[|s| - 1]) then TrimEnd(s[..|s| - 1]) else s
  }

  function Trim(s: string): string {
    TrimEnd(SkipSpace(s))
  }

  /** The lookahead \s*<. */
  predicate LinkFollows(s: string) {
    s != "" && (s[0] == '<' || (Space(s[0]) && LinkFollows(s[1..])))
  }

  /** split(/,(?=\s*<)/). */
  function Parts(s: string): (parts: seq<string>)
    ensures parts != []
  {
    if s == "" then [""]
    else
      var rest := Parts(s[1..]);
      if s[0] == ',' && LinkFollows(s[1..]) then [""] + rest
      else [[s[0]] + rest[0]] + rest[1..]
  }

  /** The first position of a character, or the length. */
  function IndexOf(s: string, c: char): (i: nat)
    ensures i <= |s| && (i < |s| ==> s[i] == c) && c !in s[..i]
  {
    if s == "" || s[0] == c then 0 else 1 + IndexOf(s[1..], c)
  }

  function Word(s: string): string {
    if s != "" && WordChar(s[0]) then [s[0]] + Word(s[1..]) else ""
  }

  /** What follows the closing bracket: \s*;\s*rel="?(\w+)"?. */
  function RelOf(s: string): Option<string> {
    var t := SkipSpace(s);
    if t == "" || t[0] != ';' then None
    else
      var u := SkipSpace(t[1..]);
      if !("rel=" <= u) then None
      else
        var v := u[4..];
        var w := Word(if v != "" && v[0] == '"' then v[1..] else v);
        if w == "" then None else Some(w)
  }

  datatype Match = Match(url: string, rel: string)

  /** /^<([^>]+)>\s*;\s*rel="?(\w+)"?/; the brackets leave the engine no choice, so nothing backtracks. */
  function MatchOf(t: string): Option<Match> {
    if t == "" || t[0] != '<' then None
    else
      var i := IndexOf(t[1..], '>');
      if i == 0 || i == |t| - 1 then None
      else
        match RelOf(t[i + 2..])
        case None => None
        case Some(rel) => Some(Match(t[1..i + 1], rel))
  }

  datatype Links = Links(next: Option<string>, prev: Option<string>)

  function Noted(out: Links, part: string): Links {
    match MatchOf(Trim(part))
    case None => out
    case Some(m) =>
      if m.rel == "next" then out.(next := Some(m.url))
      else if m.rel == "prev" then out.(prev := Some(m.url))
      else out
  }

  function NotedAll(parts: seq<string>): Links
    decreases |parts|
  {
    if parts == [] then Links(None, None) else Noted(NotedAll(parts[..|parts| - 1]), parts[|parts| - 1])
  }

  /** parseLinkHeader; an absent header and an empty one say nothing. */
  function Parsed(header: Option<string>): Links {
    if header.None? || header.value == "" then Links(None, None) else NotedAll(Parts(header.value))
  }

  // ---- What can be read back ----

  /** The client would split inside. */
  predicate Splits(s: string) {
    s != "" && ((s[0] == ',' && LinkFollows(s[1..])) || Splits(s[1..]))
  }

  predicate Readable(url: string) {
    url != "" && '>' !in url && !Splits(url)
  }

  // Whatever the client reads is readable.

  lemma {:induction false} LinkFollowsGrows(s: string, t: string)
    requires LinkFollows(s)
    ensures LinkFollows(s + t)
  {
    assert (s + t)[1..] == s[1..] + t;
    if s[0] != '<' {
      LinkFollowsGrows(s[1..], t);
    }
  }

  lemma {:induction false} SplitsGrows(s: string, t: string)
    requires Splits(s)
    ensures Splits(s + t)
  {
    assert (s + t)[1..] == s[1..] + t;
    if s[0] == ',' && LinkFollows(s[1..]) {
      LinkFollowsGrows(s[1..], t);
    } else {
      SplitsGrows(s[1..], t);
    }
  }

  lemma {:induction false} SplitsGrowsLeft(s: string, t: string)
    requires Splits(t)
    ensures Splits(s + t)
  {
    if s == "" {
      assert s + t == t;
    } else {
      assert (s + t)[1..] == s[1..] + t;
      SplitsGrowsLeft(s[1..], t);
    }
  }

  lemma {:induction false} FirstPartIsPrefix(s: string)
    ensures Parts(s)[0] <= s
  {
    if s != "" {
      FirstPartIsPrefix(s[1..]);
    }
  }

  lemma {:induction false} PartsDoNotSplit(s: string, part: string)
    requires part in Parts(s)
    ensures !Splits(part)
  {
    if s != "" {
      var rest := Parts(s[1..]);
      FirstPartIsPrefix(s[1..]);
      if part in rest {
        PartsDoNotSplit(s[1..], part);
      } else if part != "" {
        assert part == [s[0]] + rest[0] && part[1..] == rest[0];
        PartsDoNotSplit(s[1..], rest[0]);
        if LinkFollows(rest[0]) {
          LinkFollowsGrows(rest[0], s[1..][|rest[0]|..]);
          assert rest[0] + s[1..][|rest[0]|..] == s[1..];
        }
      }
    }
  }

  lemma {:induction false} SkipSpaceIsSuffix(s: string)
    ensures |SkipSpace(s)| <= |s| && s[|s| - |SkipSpace(s)|..] == SkipSpace(s)
  {
    if s != "" && Space(s[0]) {
      SkipSpaceIsSuffix(s[1..]);
      assert s[1..][|s| - 1 - |SkipSpace(s)|..] == s[|s| - |SkipSpace(s)|..];
    }
  }

  lemma {:induction false} TrimEndIsPrefix(s: string)
    ensures TrimEnd(s) <= s
    decreases |s|
  {
    if s != "" && Space(s[|s| - 1]) {
      TrimEndIsPrefix(s[..|s| - 1]);
    }
  }

  lemma TrimmedSplits(part: string)
    requires Splits(Trim(part))
    ensures Splits(part)
  {
    var t, skipped := Trim(part), SkipSpace(part);
    TrimEndIsPrefix(skipped);
    SplitsGrows(t, skipped[|t|..]);
    assert t + skipped[|t|..] == skipped;
    SkipSpaceIsSuffix(part);
    SplitsGrowsLeft(part[..|part| - |skipped|], skipped);
    assert part[..|part| - |skipped|] + skipped == part;
  }

  lemma MiddleSplits(t: string, i: nat, j: nat)
    requires i <= j <= |t| && Splits(t[i..j])
    ensures Splits(t)
  {
    SplitsGrows(t[i..j], t[j..]);
    assert t[i..j] + t[j..] == t[i..];
    SplitsGrowsLeft(t[..i], t[i..]);
    assert t[..i] + t[i..] == t;
  }

  lemma MatchesAreReadable(part: string)
    requires !Splits(part) && MatchOf(Trim(part)).Some?
    ensures Readable(MatchOf(Trim(part)).value.url)
  {
    var t := Trim(part);
    var i := IndexOf(t[1..], '>');
    assert t[1..i + 1] == t[1..][..i];
    if Splits(t[1..i + 1]) {
      MiddleSplits(t, 1, i + 1);
      TrimmedSplits(part);
    }
  }

  ghost predicate AllReadable(l: Links) {
    (l.next.Some? ==> Readable(l.next.value)) && (l.prev.Some? ==> Readable(l.prev.value))
  }

  lemma {:induction false} NotedAreReadable(parts: seq<string>)
    requires forall p | p in parts :: !Splits(p)
    ensures AllReadable(NotedAll(parts))
    decreases |parts|
  {
    if parts != [] {
      NotedAreReadable(parts[..|parts| - 1]);
      var part := parts[|parts| - 1];
      if MatchOf(Trim(part)).Some? {
        MatchesAreReadable(part);
      }
    }
  }

  lemma ParsedIsReadable(header: Option<string>)
    ensures AllReadable(Parsed(header))
  {
    if header.Some? {
      forall p | p in Parts(header.value) ensures !Splits(p) {
        PartsDoNotSplit(header.value, p);
      }
      NotedAreReadable(Parts(header.value));
    }
  }

  // And what is readable is read.

  lemma {:induction false} LinkFollowsStops(s: string, t: string)
    requires t != "" && !Space(t[0]) && t[0] != '<'
    ensures LinkFollows(s + t) == LinkFollows(s)
  {
    if s == "" {
      assert s + t == t;
    } else {
      assert (s + t)[1..] == s[1..] + t;
      LinkFollowsStops(s[1..], t);
    }
  }

  /** A stretch that does not split only lengthens the part that follows it. */
  ghost predicate Lengthens(s: string, t: string) {
    Parts(s + t) == [s + Parts(t)[0]] + Parts(t)[1..]
  }

  lemma NothingLengthens(t: string)
    ensures Lengthens("", t)
  {
    assert "" + t == t && "" + Parts(t)[0] == Parts(t)[0];
    assert [Parts(t)[0]] + Parts(t)[1..] == Parts(t);
  }

  lemma BothLengthen(s: string, t: string, u: string)
    requires Lengthens(t, u) && Lengthens(s, t + u)
    ensures Lengthens(s + t, u)
  {
    assert (s + t) + u == s + (t + u);
    assert s + (t + Parts(u)[0]) == (s + t) + Parts(u)[0];
  }

  lemma {:induction false} UrlLengthens(url: string, t: string)
    requires !Splits(url) && t != "" && t[0] == '>'
    ensures Lengthens(url, t)
  {
    if url == "" {
      NothingLengthens(t);
    } else {
      assert (url + t)[1..] == url[1..] + t;
      LinkFollowsStops(url[1..], t);
      UrlLengthens(url[1..], t);
      assert [url[0]] + (url[1..] + Parts(t)[0]) == url + Parts(t)[0];
    }
  }

  lemma {:induction false} NoCommaLengthens(s: string, t: string)
    requires ',' !in s
    ensures Lengthens(s, t)
  {
    if s == "" {
      NothingLengthens(t);
    } else {
      assert (s + t)[1..] == s[1..] + t;
      NoCommaLengthens(s[1..], t);
      assert [s[0]] + (s[1..] + Parts(t)[0]) == s + Parts(t)[0];
    }
  }

  function Tail(rel: string): string {
    ">; rel=\"" + rel + "\""
  }

  lemma LinkLengthens(url: string, rel: string, t: string)
    requires Readable(url) && ',' !in rel
    ensures Lengthens(Link(url, rel), t)
  {
    NoCommaLengthens(Tail(rel), t);
    UrlLengthens(url, Tail(rel) + t);
    BothLengthen(url, Tail(rel), t);
    NoCommaLengthens("<", url + Tail(rel) + t);
    BothLengthen("<", url + Tail(rel), t);
    assert Link(url, rel) == "<" + (url + Tail(rel));
  }

  lemma PartsOfOne(url: string, rel: string)
    requires Readable(url) && ',' !in rel
    ensures Parts(Link(url, rel)) == [Link(url, rel)]
  {
    LinkLengthens(url, rel, "");
    assert Link(url, rel) + "" == Link(url, rel);
  }

  lemma PartsOfTwo(next: string, prev: string)
    requires Readable(next) && Readable(prev)
    ensures Parts(Link(next, "next") + ", " + Link(prev, "prev")) == [Link(next, "next"), " " + Link(prev, "prev")]
  {
    var second := " " + Link(prev, "prev");
    PartsOfOne(prev, "prev");
    NoCommaLengthens(" ", Link(prev, "prev"));
    assert Parts(second) == [second];
    assert second[1..] == Link(prev, "prev") && LinkFollows(second[1..]) && LinkFollows(second);
    assert ("," + second)[1..] == second;
    assert Parts("," + second) == ["", second];
    LinkLengthens(next, "next", "," + second);
    assert Link(next, "next") + "" == Link(next, "next");
    assert Link(next, "next") + ", " + Link(prev, "prev") == Link(next, "next") + ("," + second);
  }

  lemma {:induction false} WordStops(w: string, t: string)
    requires (forall c | c in w :: WordChar(c)) && t != "" && !WordChar(t[0])
    ensures Word(w + t) == w
  {
    if w == "" {
      assert w + t == t;
    } else {
      assert (w + t)[1..] == w[1..] + t;
      WordStops(w[1..], t);
    }
  }

  lemma SkipOne(s: string)
    requires s != "" && !Space(s[0])
    ensures SkipSpace(" " + s) == s
  {
    assert (" " + s)[1..] == s;
  }

  lemma RelIsRead(rel: string)
    requires rel != "" && forall c | c in rel :: WordChar(c)
    ensures RelOf("; rel=\"" + rel + "\"") == Some(rel)
  {
    var s := "; rel=\"" + rel + "\"";
    assert s[1..] == " rel=\"" + rel + "\"";
    assert s[1..][1..] == "rel=\"" + rel + "\"";
    var u := SkipSpace(s[1..]);
    SkipOne("rel=\"" + rel + "\"");
    assert s[1..] == " " + ("rel=\"" + rel + "\"");
    assert u == "rel=" + ("\"" + (rel + "\""));
    assert u[4..] == "\"" + (rel + "\"");
    assert u[4..][1..] == rel + "\"";
    WordStops(rel, "\"");
  }

  lemma {:induction false} IndexOfIs(s: string, c: char, i: nat)
    requires i < |s| && s[i] == c && c !in s[..i]
    ensures IndexOf(s, c) == i
  {
    if i > 0 {
      assert s[..i][0] != c && s[1..][..i - 1] == s[..i][1..];
      IndexOfIs(s[1..], c, i - 1);
    }
  }

  lemma LinkIsMatched(url: string, rel: string)
    requires Readable(url) && rel != "" && forall c | c in rel :: WordChar(c)
    ensures MatchOf(Link(url, rel)) == Some(Match(url, rel))
  {
    var t := Link(url, rel);
    assert t[1..] == url + Tail(rel);
    var i := |url|;
    assert t[1..][..i] == url;
    IndexOfIs(t[1..], '>', i);
    assert t[i + 2..] == "; rel=\"" + rel + "\"";
    RelIsRead(rel);
    assert t[1..i + 1] == url;
  }

  lemma LinkIsTrim(url: string, rel: string)
    ensures Trim(Link(url, rel)) == Link(url, rel) && Trim(" " + Link(url, rel)) == Link(url, rel)
  {
    assert (" " + Link(url, rel))[1..] == Link(url, rel);
  }

  lemma NotedOne(part: string)
    ensures NotedAll([part]) == Noted(Links(None, None), part)
  {
    assert [part][..0] == [];
  }

  lemma NotedTwo(first: string, second: string)
    ensures NotedAll([first, second]) == Noted(Noted(Links(None, None), first), second)
  {
    assert [first, second][..1] == [first];
    NotedOne(first);
  }

  lemma LinkIsNoted(out: Links, url: string, rel: string)
    requires Readable(url) && (rel == "next" || rel == "prev")
    ensures var noted := if rel == "next" then out.(next := Some(url)) else out.(prev := Some(url));
            Noted(out, Link(url, rel)) == noted && Noted(out, " " + Link(url, rel)) == noted
  {
    LinkIsMatched(url, rel);
    LinkIsTrim(url, rel);
  }

  lemma OneIsRead(url: string, rel: string)
    requires Readable(url) && (rel == "next" || rel == "prev")
    ensures Parsed(Some(Link(url, rel))) == if rel == "next" then Links(Some(url), None) else Links(None, Some(url))
  {
    PartsOfOne(url, rel);
    NotedOne(Link(url, rel));
    LinkIsNoted(Links(None, None), url, rel);
  }

  lemma TwoAreRead(next: string, prev: string)
    requires Readable(next) && Readable(prev)
    ensures Parsed(Some(Link(next, "next") + ", " + Link(prev, "prev"))) == Links(Some(next), Some(prev))
  {
    PartsOfTwo(next, prev);
    NotedTwo(Link(next, "next"), " " + Link(prev, "prev"));
    LinkIsNoted(Links(None, None), next, "next");
    LinkIsNoted(Links(Some(next), None), prev, "prev");
  }

  /**
   The client gets back exactly the links the server printed if and only if no target is empty, contains
   a closing bracket, or has a comma, spaces and an opening bracket in a row.
   */
  lemma HeaderRoundTripsIff(next: Option<string>, prev: Option<string>)
    ensures Parsed(Header(next, prev)) == Links(next, prev) <==>
            (next.Some? ==> Readable(next.value)) && (prev.Some? ==> Readable(prev.value))
  {
    ParsedIsReadable(Header(next, prev));
    if AllReadable(Links(next, prev)) {
      match (next, prev) {
        case (None, None) =>
        case (Some(n), None) => OneIsRead(n, "next");
        case (None, Some(p)) => OneIsRead(p, "prev");
        case (Some(n), Some(p)) => TwoAreRead(n, p);
      }
    }
  }

  lemma {:induction false} NoBracketNoFollow(s: string)
    requires '<' !in s
    ensures !LinkFollows(s) && !Splits(s)
  {
    if s != "" {
      NoBracketNoFollow(s[1..]);
    }
  }

  /**
   So every page link survives the trip, whatever the path and the encoded query, as long as neither contains an
   angle bracket.
   */
  lemma PageLinksRoundTrip(path: string, next: Option<string>, prev: Option<string>)
    requires '<' !in path && '>' !in path
    requires next.Some? ==> '<' !in next.value && '>' !in next.value
    requires prev.Some? ==> '<' !in prev.value && '>' !in prev.value
    ensures var n := if next.Some? then Some(path + "?" + next.value) else None;
            var p := if prev.Some? then Some(path + "?" + prev.value) else None;
            Parsed(Header(n, p)) == Links(n, p)
  {
    var n := if next.Some? then Some(path + "?" + next.value) else None;
    var p := if prev.Some? then Some(path + "?" + prev.value) else None;
    if n.Some? {
      NoBracketNoFollow(n.value);
    }
    if p.Some? {
      NoBracketNoFollow(p.value);
    }
    HeaderRoundTripsIff(n, p);
  }

  // ---- The code ----

  /** joinLinks. */
  method JoinLinks(links: seq<string>) returns (out: string)
    requires links != []
    ensures out == Joined(links)
  {
    out := links[0];
    var i := 1;
    while i < |links|
      invariant 1 <= i <= |links|
      invariant out == Joined(links[..i])
    {
      assert links[..i + 1][..i] == links[..i];
      out := out + ", " + links[i];
      i := i + 1;
    }
    assert links[..|links|] == links;
  }

  /** preserveQueryExceptPaging. */
  method PreserveQueryExceptPaging(v: Values) returns (out: Values)
    ensures out == Read(v).filters
  {
    out := map[];
    var todo := v.Keys;
    while todo != {}
      invariant todo <= v.Keys && out.Keys == v.Keys - todo - {OFFSET, LIMIT}
      invariant forall k | k in out :: out[k] == v[k]
      decreases todo
    {
      var k :| k in todo;
      todo := todo - {k};
      if k == OFFSET || k == LIMIT {
        continue;
      }
      out := out[k := v[k]];
    }
  }

  function Target(path: string, v: Values, encode: Values -> string, offset: int, limit: nat): string {
    path + "?" + encode(Written(LinkQuery(Read(v), offset, limit)))
  }

  /** writePaginationLinks; `encode` is url.Values.Encode. */
  method WritePaginationLinks(path: string, v: Values, encode: Values -> string, hasMore: bool, offset: nat, limit: nat)
    returns (header: Option<string>)
    ensures header == Header(
                        if hasMore then Some(Target(path, v, encode, Wrapped(offset + limit), limit)) else None,
                        if offset > 0 then Some(Target(path, v, encode, if offset < limit then 0
                            else offset - limit, limit)) else None)
  {
    var preserved := PreserveQueryExceptPaging(v);
    var links := [];
    if hasMore {
      var q := preserved[OFFSET := [Itoa(Wrapped(offset + limit))]][LIMIT := [Itoa(limit)]];
      links := links + [Link(path + "?" + encode(q), "next")];
    }
    if offset > 0 {
      var prev := offset - limit;
      if prev < 0 {
        prev := 0;
      }
      var q := preserved[OFFSET := [Itoa(prev)]][LIMIT := [Itoa(limit)]];
      links := links + [Link(path + "?" + encode(q), "prev")];
    }
    if |links| == 0 {
      return None;
    }
    var joined := JoinLinks(links);
    if |links| == 2 {
      assert joined == Joined(links[..1]) + ", " + links[1] && links[..1][0] == links[0];
    }
    return Some(joined);
  }

  /** parseLinkHeader. */
  method ParseLinkHeader(header: Option<string>) returns (out: Links)
    ensures out == Parsed(header)
  {
    out := Links(None, None);
    if header.None? || header.value == "" {
      return;
    }
    var parts := Parts(header.value);
    var i := 0;
    while i < |parts|
      invariant i <= |parts|
      invariant out == NotedAll(parts[..i])
    {
      assert parts[..i + 1][..i] == parts[..i];
      var m := MatchOf(Trim(parts[i]));
      if m.Some? {
        if m.value.rel == "prev" {
          out := out.(prev := Some(m.value.url));
        } else if m.value.rel == "next" {
          out := out.(next := Some(m.value.url));
        }
      }
      i := i + 1;
    }
    assert parts[..|parts|] == parts;
  }
}
