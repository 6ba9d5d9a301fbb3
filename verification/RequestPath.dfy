/** The paths forward-auth serves (auth/internal/handler/forward_auth.go). Strings are byte strings. */
module RequestPath {
  import opened Wrappers

  function TrimSlashPrefix(s: string): string {
    if s != "" && s[0] == '/' then s[1..] else s
  }

  function TrimSlashSuffix(s: string): string {
    if s != "" && s[|s| - 1] == '/' then s[..|s| - 1] else s
  }

  /** Position of the first slash, or the length when there is none. */
  function SlashAt(s: string): (i: nat)
    ensures i <= |s| && '/' !in s[..i] && (i < |s| ==> s[i] == '/')
  {
    if s == "" || s[0] == '/' then 0
    else
      var i := SlashAt(s[1..]);
      assert s[..i + 1] == [s[0]] + s[1..][..i];
      i + 1
  }

  /** strings.SplitN(s, "/", n). */
  function SplitN(s: string, n: nat): seq<string>
    requires n >= 1
    decreases n
  {
    var i := SlashAt(s);
    if n == 1 || i == |s| then [s] else [s[..i]] + SplitN(s[i + 1..], n - 1)
  }

  function ExtractComponent(path: string): Option<string> {
    ComponentOf(SplitN(TrimSlashPrefix(path), 5))
  }

  function ComponentOf(parts: seq<string>): Option<string> {
    if |parts| < 2 || parts[0] == "" then None
    else if parts[0] == "rpm" || parts[0] == "deb" then NonEmpty(parts[1])
    else if parts[0] == "oci" then
      if |parts| < 3 || parts[1] != "v2" then None else NonEmpty(parts[2])
    else None
  }

  function NonEmpty(s: string): Option<string> {
    if s == "" then None else Some(s)
  }

  predicate IsRegistryPing(path: string) {
    var p := TrimSlashSuffix(path);
    p == "/v2" || p == "/oci/v2"
  }

  // ---- What it accepts, without splitting ----

  predicate ComponentName(c: string) {
    c != "" && '/' !in c
  }

  /** The end of the path, or more segments. */
  predicate Continuation(tail: string) {
    tail == "" || tail[0] == '/'
  }

  function Shallow(kind: string, c: string, tail: string): string {
    kind + ("/" + (c + tail))
  }

  function Deep(c: string, tail: string): string {
    "oci" + ("/" + ("v2" + ("/" + (c + tail))))
  }

  /** `rpm/c`, `deb/c` or `oci/v2/c`, where c is a whole segment. */
  ghost predicate Served(s: string, c: string) {
    ComponentName(c) &&
    exists tail | Continuation(tail) ::
      s == Shallow("rpm", c, tail) || s == Shallow("deb", c, tail) || s == Deep(c, tail)
  }

  lemma {:induction false} SlashAtEnd(c: string, tail: string)
    requires '/' !in c && Continuation(tail)
    ensures SlashAt(c + tail) == |c|
  {
    var s := c + tail;
    assert forall k | 0 <= k < |c| :: s[k] == c[k];
    assert tail == "" || s[|c|] == '/';
  }

  /** What a slash-free first segment and what follows it split into. */
  lemma {:induction false} SplitFirst(first: string, rest: string, n: nat)
    requires n >= 2 && '/' !in first
    ensures SplitN(first + ("/" + rest), n) == [first] + SplitN(rest, n - 1)
  {
    SlashAtEnd(first, "/" + rest);
    assert (first + ("/" + rest))[|first| + 1..] == rest;
  }

  lemma {:induction false} FirstSegment(c: string, tail: string, n: nat)
    requires n >= 2 && '/' !in c && Continuation(tail)
    ensures SplitN(c + tail, n)[0] == c
  {
    SlashAtEnd(c, tail);
    assert (c + tail)[..|c|] == c;
    assert tail == "" ==> c + tail == c;
  }

  function First(s: string): string {
    s[..SlashAt(s)]
  }

  function Tail(s: string): string {
    s[SlashAt(s)..]
  }

  function After(s: string): string {
    if SlashAt(s) < |s| then s[SlashAt(s) + 1..] else ""
  }

  lemma {:induction false} Cut(s: string)
    ensures s == First(s) + Tail(s) && Continuation(Tail(s))
    ensures SlashAt(s) < |s| ==> s == First(s) + ("/" + After(s))
  {
  }

  lemma {:induction false} SplitCut(s: string, n: nat)
    requires n >= 2
    ensures var p := SplitN(s, n);
            && p[0] == First(s)
            && (|p| >= 2 ==> p[1..] == SplitN(After(s), n - 1) && s == First(s) + ("/" + After(s)))
  {
    Cut(s);
  }

  lemma {:induction false} OneDeep(kind: string, c: string, tail: string)
    requires '/' !in kind && '/' !in c && Continuation(tail)
    ensures var parts := SplitN(Shallow(kind, c, tail), 5); |parts| >= 2 && parts[0] == kind && parts[1] == c
  {
    SplitFirst(kind, c + tail, 5);
    FirstSegment(c, tail, 4);
  }

  lemma {:induction false} TwoDeep(c: string, tail: string)
    requires '/' !in c && Continuation(tail)
    ensures var parts := SplitN(Deep(c, tail), 5);
            |parts| >= 3 && parts[0] == "oci" && parts[1] == "v2" && parts[2] == c
  {
    SplitFirst("oci", "v2" + ("/" + (c + tail)), 5);
    SplitFirst("v2", c + tail, 4);
    FirstSegment(c, tail, 3);
  }

  lemma ShallowIsExtracted(kind: string, c: string, tail: string)
    requires (kind == "rpm" || kind == "deb") && ComponentName(c) && Continuation(tail)
    ensures ComponentOf(SplitN(Shallow(kind, c, tail), 5)) == Some(c)
  {
    assert '/' !in kind;
    OneDeep(kind, c, tail);
  }

  lemma DeepIsExtracted(c: string, tail: string)
    requires ComponentName(c) && Continuation(tail)
    ensures ComponentOf(SplitN(Deep(c, tail), 5)) == Some(c)
  {
    TwoDeep(c, tail);
  }

  /** A path that names c yields c. */
  lemma {:induction false} ServedIsExtracted(s: string, c: string)
    requires Served(s, c)
    ensures ComponentOf(SplitN(s, 5)) == Some(c)
  {
    var tail :| Continuation(tail) && (s == Shallow("rpm", c, tail) || s == Shallow("deb", c, tail)
        || s == Deep(c, tail));
    ShallowIsExtracted("rpm", c, tail);
    ShallowIsExtracted("deb", c, tail);
    DeepIsExtracted(c, tail);
  }

  lemma {:induction false} ExtractedTwo(s: string)
    requires |SplitN(s, 5)| >= 3
    ensures var p := SplitN(s, 5);
            exists tail | Continuation(tail) :: s == p[0] + ("/" + (p[1] + ("/" + (p[2] + tail))))
  {
    var rest, last := After(s), After(After(s));
    SplitCut(s, 5);
    SplitCut(rest, 4);
    SplitCut(last, 3);
    Cut(last);
    assert SplitN(s, 5)[1] == SplitN(rest, 4)[0] && SplitN(s, 5)[2] == SplitN(rest, 4)[1] == SplitN(last, 3)[0];
    assert s == First(s) + ("/" + (First(rest) + ("/" + (First(last) + Tail(last)))));
  }

  lemma {:induction false} ExtractedShallow(s: string)
    requires |SplitN(s, 5)| >= 2
    ensures var p := SplitN(s, 5); exists tail | Continuation(tail) :: s == Shallow(p[0], p[1], tail)
  {
    var rest := After(s);
    SplitCut(s, 5);
    SplitCut(rest, 4);
    Cut(rest);
    assert SplitN(s, 5)[1] == SplitN(rest, 4)[0];
    assert s == Shallow(First(s), First(rest), Tail(rest));
  }

  /** A path that yields c names it. */
  lemma {:induction false} ExtractedIsServed(s: string, c: string)
    requires ComponentOf(SplitN(s, 5)) == Some(c)
    ensures Served(s, c)
  {
    SegmentsAreSlashFree(s, 5);
    if SplitN(s, 5)[0] == "oci" {
      ExtractedTwo(s);
    } else {
      ExtractedShallow(s);
    }
  }

  lemma {:induction false} SegmentsAreSlashFree(s: string, n: nat)
    requires n >= 1
    ensures var p := SplitN(s, n); |p| <= n && forall k | 0 <= k < |p| && k < n - 1 :: '/' !in p[k]
    decreases n
  {
    var i := SlashAt(s);
    if n > 1 && i < |s| {
      SegmentsAreSlashFree(s[i + 1..], n - 1);
    }
  }

  /** extractComponent accepts exactly the served paths, and returns the component they name. */
  lemma {:induction false} ExtractsExactlyTheServed(path: string, c: string)
    ensures ExtractComponent(path) == Some(c) <==> Served(TrimSlashPrefix(path), c)
  {
    if Served(TrimSlashPrefix(path), c) { ServedIsExtracted(TrimSlashPrefix(path), c); }
    if ExtractComponent(path) == Some(c) { ExtractedIsServed(TrimSlashPrefix(path), c); }
  }

  /** So it inverts building a path, whatever follows the component, with and without the slash. */
  lemma {:induction false} ExtractInvertsBuild(s: string, c: string, tail: string)
    requires ComponentName(c) && Continuation(tail)
    requires s == Shallow("rpm", c, tail) || s == Shallow("deb", c, tail) || s == Deep(c, tail)
    ensures ExtractComponent(s) == ExtractComponent("/" + s) == Some(c)
  {
    assert TrimSlashPrefix(s) == s && TrimSlashPrefix("/" + s) == s;
    ServedIsExtracted(s, c);
  }

  lemma PingIsShort(path: string)
    requires IsRegistryPing(path)
    ensures var s := TrimSlashPrefix(path); s != "" && (s[0] == 'v' || s[0] == 'o') && |s| <= 7
  {
    var p := TrimSlashSuffix(path);
    assert path == p || path == p + "/";
  }

  lemma ServedIsLonger(s: string, c: string)
    requires Served(s, c)
    ensures s != "" && (s[0] == 'r' || s[0] == 'd' || (s[0] == 'o' && |s| > 7))
  {
  }

  /** The version check of a registry client names no component. */
  lemma {:induction false} PingNamesNothing(path: string)
    requires IsRegistryPing(path)
    ensures ExtractComponent(path) == None
  {
    PingIsShort(path);
    if ExtractComponent(path).Some? {
      ExtractedIsServed(TrimSlashPrefix(path), ExtractComponent(path).value);
      ServedIsLonger(TrimSlashPrefix(path), ExtractComponent(path).value);
    }
  }

  predicate HexDigit(c: char) {
    '0' <= c <= '9' || 'a' <= c <= 'f' || 'A' <= c <= 'F'
  }

  method IsHex(s: string) returns (hex: bool)
    ensures hex <==> forall c | c in s :: HexDigit(c)
  {
    for i := 0 to |s|
      invariant forall c | c in s[..i] :: HexDigit(c)
    {
      if !HexDigit(s[i]) {
        return false;
      }
    }
    assert s[..|s|] == s;
    return true;
  }
}
