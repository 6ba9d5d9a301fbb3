/**
 A client walking a list over the wire: it reads the Link header of each page, sends the query of the next
 target back, and stops when there is none.
 */
module PageWalk {
  import opened Wrappers
  import opened LinkHeader
  import opened Paging

  /** url.Values.Encode and url.ParseQuery. */
  datatype Codec = Codec(encode: Values -> string, decode: string -> Values)

  /** No parameter without a value; a parsed query has none. */
  predicate Proper(v: Values) {
    forall k | k in v :: v[k] != []
  }

  /** What the two library functions promise: they invert each other, and angle brackets are escaped. */
  ghost predicate Lawful(c: Codec) {
    && (forall s: string :: Proper(c.decode(s)))
    && (forall v: Values | Proper(v) :: c.decode(c.encode(v)) == v && '<' !in c.encode(v) && '>' !in c.encode(v))
  }

  predicate Plain(path: string) {
    '<' !in path && '>' !in path && '?' !in path
  }

  function Url(path: string, c: Codec, q: Option<Query>): Option<string> {
    if q.None? then None else Some(path + "?" + c.encode(Written(q.value)))
  }

  datatype Response<T> = Response(rows: seq<T>, link: Option<string>)

  /** The server: parse, page, print the links. */
  function Answer<T>(list: seq<T>, path: string, c: Codec, request: string): Result<Response<T>, Error> {
    match Serve(list, Read(c.decode(request)))
    case Err(e) => Err(e)
    case Ok(p) => Ok(Response(p.rows, Header(Url(path, c, p.next), Url(path, c, p.prev))))
  }

  /** The client: the query of the next target, if there is one. */
  function NextRequest(link: Option<string>): Option<string> {
    match Parsed(link).next
    case None => None
    case Some(url) => var i := IndexOf(url, '?'); Some(if i < |url| then url[i + 1..] else "")
  }

  lemma WrittenIsProper(v: Values, offset: string, limit: string)
    requires Proper(v)
    ensures Proper(Written(Read(v).(offset := offset, limit := limit)))
  {
  }

  lemma QueryIsFound(path: string, query: string)
    requires '?' !in path
    ensures IndexOf(path + "?" + query, '?') == |path| && (path + "?" + query)[|path| + 1..] == query
  {
    var url := path + "?" + query;
    assert url[..|path|] == path;
    IndexOfIs(url, '?', |path|);
  }

  /** The targets of a page come back from its header. */
  lemma LinksComeBack(path: string, c: Codec, next: Option<Query>, prev: Option<Query>)
    requires Plain(path) && Lawful(c)
    requires next.Some? ==> Proper(Written(next.value))
    requires prev.Some? ==> Proper(Written(prev.value))
    ensures Parsed(Header(Url(path, c, next), Url(path, c, prev))) == Links(Url(path, c, next), Url(path, c, prev))
  {
    var n := if next.Some? then Some(c.encode(Written(next.value))) else None;
    var p := if prev.Some? then Some(c.encode(Written(prev.value))) else None;
    PageLinksRoundTrip(path, n, p);
  }

  /** What the client sends next is read by the server as the query the link was built from, filters included. */
  lemma NextRequestIsTheLink<T>(list: seq<T>, path: string, c: Codec, request: string)
    requires |list| <= MAX_INT && Plain(path) && Lawful(c) && Answer(list, path, c, request).Ok?
    ensures var p := Serve(list, Read(c.decode(request))).value;
            var next := NextRequest(Answer(list, path, c, request).value.link);
            && (next.Some? <==> p.next.Some?)
            && (next.Some? ==> Read(c.decode(next.value)) == p.next.value)
  {
    var v := c.decode(request);
    var p := Serve(list, Read(v)).value;
    if p.next.Some? {
      WrittenIsProper(v, p.next.value.offset, p.next.value.limit);
      ReadInvertsWritten(v, p.next.value.offset, p.next.value.limit);
      QueryIsFound(path, c.encode(Written(p.next.value)));
    }
    if p.prev.Some? {
      WrittenIsProper(v, p.prev.value.offset, p.prev.value.limit);
    }
    LinksComeBack(path, c, p.next, p.prev);
  }

  function Remaining<T>(list: seq<T>, q: Query): nat {
    if ParsePaging(q).Ok? && ParsePaging(q).value.0 < |list| then |list| - ParsePaging(q).value.0 else 0
  }

  /** The pages a client gets over the wire. */
  ghost function ClientWalk<T>(list: seq<T>, path: string, c: Codec, request: string): seq<seq<T>>
    requires |list| <= MAX_INT && Plain(path) && Lawful(c)
    decreases Remaining(list, Read(c.decode(request)))
  {
    match Answer(list, path, c, request)
    case Err(_) => []
    case Ok(response) =>
      NextRequestIsTheLink(list, path, c, request);
      var next := NextRequest(response.link);
      if next.None? then [response.rows]
      else
        NextGoesOn(list, Read(c.decode(request)));
        [response.rows] + ClientWalk(list, path, c, next.value)
  }

  lemma NextGoesOn<T>(list: seq<T>, q: Query)
    requires |list| <= MAX_INT && Serve(list, q).Ok? && Serve(list, q).value.next.Some?
    ensures Remaining(list, Serve(list, q).value.next.value) < Remaining(list, q)
  {
    var (offset, limit) := ParsePaging(q).value;
    NextIs(list, q, offset, limit);
    LinkQueryIs(q, offset + limit, limit);
  }

  lemma {:induction false} ClientWalkIsWalk<T>(list: seq<T>, path: string, c: Codec, request: string)
    requires |list| <= MAX_INT && Plain(path) && Lawful(c)
    ensures ClientWalk(list, path, c, request) == Walk(list, Read(c.decode(request)))
    decreases Remaining(list, Read(c.decode(request)))
  {
    var q := Read(c.decode(request));
    if Serve(list, q).Ok? {
      NextRequestIsTheLink(list, path, c, request);
      var next := NextRequest(Answer(list, path, c, request).value.link);
      if next.Some? {
        NextGoesOn(list, q);
        ClientWalkIsWalk(list, path, c, next.value);
      }
    }
  }

  /** End to end: the pages a client walks over the wire are the list from the requested offset on, each row once. */
  lemma ClientGetsTheList<T>(list: seq<T>, path: string, c: Codec, request: string, offset: nat, limit: nat)
    requires |list| <= MAX_INT && Plain(path) && Lawful(c)
    requires ParsePaging(Read(c.decode(request))) == Ok((offset, limit))
    ensures Concat(ClientWalk(list, path, c, request)) == if offset <= |list| then list[offset..] else []
  {
    ClientWalkIsWalk(list, path, c, request);
    WalkIsTheList(list, Read(c.decode(request)), offset, limit);
  }
}
