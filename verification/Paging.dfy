/**
 Offset paging over an unchanging, totally ordered list (auth/internal/handler/accounts.go and the list
 queries of the store). Go's int is 64 bits wide.
 */
module Paging {
  import opened Wrappers

  const DEFAULT_LIMIT := 50
  const MAX_LIMIT := 500
  const MAX_INT := 0x7FFF_FFFF_FFFF_FFFF
  const INT_MODULUS := 0x1_0000_0000_0000_0000

  /** Two's-complement wrap-around of a 64-bit sum. */
  function Wrapped(n: int): int {
    (n + MAX_INT + 1) % INT_MODULUS - MAX_INT - 1
  }

  // ---- strconv ----

  predicate Digit(c: char) {
    '0' <= c <= '9'
  }

  predicate AllDigits(s: string) {
    forall i | 0 <= i < |s| :: Digit(s[i])
  }

  function Value(s: string): nat
    requires AllDigits(s)
    decreases |s|
  {
    if s == "" then 0 else 10 * Value(s[..|s| - 1]) + (s[|s| - 1] as int - '0' as int)
  }

  function Magnitude(s: string): Option<int> {
    if s == "" || !AllDigits(s) then None else Some(Value(s))
  }

  /** strconv.Atoi: an optional sign, then decimal digits, within 64 bits. */
  function Atoi(s: string): Option<int> {
    if s == "" then None
    else if s[0] == '-' then InRange(Negated(Magnitude(s[1..])))
    else if s[0] == '+' then InRange(Magnitude(s[1..]))
    else InRange(Magnitude(s))
  }

  function Negated(n: Option<int>): Option<int> {
    if n.Some? then Some(-n.value) else None
  }

  function InRange(n: Option<int>): Option<int> {
    if n.Some? && -MAX_INT - 1 <= n.value <= MAX_INT then n else None
  }

  function Digits(n: nat): string {
    var last := ['0' + (n % 10) as char];
    if n < 10 then last else Digits(n / 10) + last
  }

  lemma {:induction false} DigitsAreTheValue(n: nat)
    ensures Digits(n) != "" && AllDigits(Digits(n)) && Value(Digits(n)) == n
  {
    if n >= 10 {
      DigitsAreTheValue(n / 10);
      assert Digits(n)[..|Digits(n)| - 1] == Digits(n / 10);
    }
  }

  function Itoa(n: int): string {
    if n < 0 then "-" + Digits(-n) else Digits(n)
  }

  lemma AtoiInvertsItoa(n: nat)
    requires n <= MAX_INT
    ensures Atoi(Itoa(n)) == Some(n)
  {
    DigitsAreTheValue(n);
    assert Digit(Digits(n)[0]);
  }

  // ---- Queries ----

  /** url.Values. */
  type Values = map<string, seq<string>>

  const OFFSET := "offset"
  const LIMIT := "limit"

  function Get(v: Values, key: string): string {
    if key in v && v[key] != [] then v[key][0] else ""
  }

  /** What a list handler takes from a query: two parameters, and everything else as it came. */
  datatype Query = Query(offset: string, limit: string, filters: Values)

  function Read(v: Values): Query {
    Query(Get(v, OFFSET), Get(v, LIMIT), v - {OFFSET, LIMIT})
  }

  function Written(q: Query): Values {
    q.filters[OFFSET := [q.offset]][LIMIT := [q.limit]]
  }

  /** A link reads back as what was written into it, filters included. */
  lemma ReadInvertsWritten(v: Values, offset: string, limit: string)
    ensures Read(Written(Read(v).(offset := offset, limit := limit))) == Read(v).(offset := offset, limit := limit)
  {
  }

  datatype Error = InvalidRequest | LimitTooLarge

  /** Offset and limit of a request, with defaults and caps. */
  function ParsePaging(q: Query): (r: Result<(nat, nat), Error>)
    ensures r.Ok? ==> r.value.0 <= MAX_INT && 1 <= r.value.1 <= MAX_LIMIT
  {
    var offset := if q.offset == "" then Some(0) else Atoi(q.offset);
    if offset.None? || offset.value < 0 then Err(InvalidRequest)
    else
      var limit := if q.limit == "" then Some(DEFAULT_LIMIT) else Atoi(q.limit);
      if limit.None? || limit.value <= 0 then Err(InvalidRequest)
      else if limit.value > MAX_LIMIT then Err(LimitTooLarge)
      else Ok((offset.value, limit.value))
  }

  function LinkQuery(q: Query, offset: int, limit: nat): Query {
    q.(offset := Itoa(offset), limit := Itoa(limit))
  }

  /** A link's query asks for what it was built for. */
  lemma LinkQueryIs(q: Query, offset: nat, limit: nat)
    requires offset <= MAX_INT && 1 <= limit <= MAX_LIMIT
    ensures ParsePaging(LinkQuery(q, offset, limit)) == Ok((offset, limit))
  {
    AtoiInvertsItoa(offset);
    AtoiInvertsItoa(limit);
    DigitsAreTheValue(offset);
    DigitsAreTheValue(limit);
  }

  // ---- Pages ----

  /** LIMIT and OFFSET. */
  function Select<T>(list: seq<T>, offset: nat, limit: nat): seq<T> {
    if offset >= |list| then []
    else if limit <= |list| - offset then list[offset..offset + limit]
    else list[offset..]
  }

  datatype Page<T> = Page(rows: seq<T>, next: Option<Query>, prev: Option<Query>)

  /** One row more than the page is fetched, to know whether there is a next page. */
  function PageAt<T>(list: seq<T>, q: Query, offset: nat, limit: nat): Page<T> {
    var fetched := Select(list, offset, limit + 1);
    var hasMore := |fetched| > limit;
    Page(if hasMore then fetched[..limit] else fetched,
         if hasMore then Some(LinkQuery(q, Wrapped(offset + limit), limit)) else None,
         if offset > 0 then Some(LinkQuery(q, if offset < limit then 0 else offset - limit, limit)) else None)
  }

  function Serve<T>(list: seq<T>, q: Query): Result<Page<T>, Error> {
    match ParsePaging(q)
    case Err(e) => Err(e)
    case Ok((offset, limit)) => Ok(PageAt(list, q, offset, limit))
  }

  /** A next link is there exactly when rows remain, and names them: no offset in a link overflows. */
  lemma NextIs<T>(list: seq<T>, q: Query, offset: nat, limit: nat)
    requires |list| <= MAX_INT && 1 <= limit
    ensures var p := PageAt(list, q, offset, limit);
            && p.next == (if offset + limit < |list| then Some(LinkQuery(q, offset + limit, limit)) else None)
            && p.rows == if offset > |list| then [] else if offset + limit < |list| then list[offset..offset + limit]
               else list[offset..]
  {
    var fetched := Select(list, offset, limit + 1);
    assert |fetched| > limit <==> offset + limit < |list|;
    if offset + limit < |list| {
      assert fetched[..limit] == list[offset..offset + limit];
      assert Wrapped(offset + limit) == offset + limit;
    }
  }

  /** The pages a client gets by following next links. */
  function Walk<T>(list: seq<T>, q: Query): seq<seq<T>>
    requires |list| <= MAX_INT
    decreases if ParsePaging(q).Ok? && ParsePaging(q).value.0 < |list| then |list| - ParsePaging(q).value.0 else 0
  {
    match ParsePaging(q)
    case Err(_) => []
    case Ok((offset, limit)) =>
      var p := PageAt(list, q, offset, limit);
      NextIs(list, q, offset, limit);
      if p.next.None? then [p.rows]
      else
        LinkQueryIs(q, offset + limit, limit);
        [p.rows] + Walk(list, p.next.value)
  }

  function Concat<T>(pages: seq<seq<T>>): seq<T> {
    if pages == [] then [] else pages[0] + Concat(pages[1..])
  }

  lemma ConcatCons<T>(page: seq<T>, pages: seq<seq<T>>)
    ensures Concat([page] + pages) == page + Concat(pages)
  {
    assert ([page] + pages)[1..] == pages;
  }

  /** The same pages by arithmetic alone. */
  function Pages<T>(list: seq<T>, offset: nat, limit: nat): seq<seq<T>>
    requires 1 <= limit && offset <= |list|
    decreases |list| - offset
  {
    if offset + limit >= |list| then [list[offset..]]
    else [list[offset..offset + limit]] + Pages(list, offset + limit, limit)
  }

  lemma {:induction false} WalkIsPages<T>(list: seq<T>, q: Query, offset: nat, limit: nat)
    requires |list| <= MAX_INT && ParsePaging(q) == Ok((offset, limit)) && offset <= |list|
    ensures Walk(list, q) == Pages(list, offset, limit)
    decreases |list| - offset
  {
    NextIs(list, q, offset, limit);
    if offset + limit < |list| {
      LinkQueryIs(q, offset + limit, limit);
      WalkIsPages(list, LinkQuery(q, offset + limit, limit), offset + limit, limit);
    }
  }

  lemma {:induction false} PagesAreTheList<T>(list: seq<T>, offset: nat, limit: nat)
    requires 1 <= limit && offset <= |list|
    ensures Concat(Pages(list, offset, limit)) == list[offset..]
    decreases |list| - offset
  {
    if offset + limit < |list| {
      PagesAreTheList(list, offset + limit, limit);
      ConcatCons(list[offset..offset + limit], Pages(list, offset + limit, limit));
      assert list[offset..] == list[offset..offset + limit] + list[offset + limit..];
    } else {
      ConcatCons(list[offset..], []);
      assert [list[offset..]] + [] == [list[offset..]];
    }
  }

  /**
   From any offset on, whatever the limit and the filters, the walk ends and its pages are the rest of the list,
   each row once and in order.
   */
  lemma WalkIsTheList<T>(list: seq<T>, q: Query, offset: nat, limit: nat)
    requires |list| <= MAX_INT && ParsePaging(q) == Ok((offset, limit))
    ensures Concat(Walk(list, q)) == if offset <= |list| then list[offset..] else []
    ensures q.offset == "" ==> Concat(Walk(list, q)) == list
    ensures offset >= |list| ==> Walk(list, q) == [[]]
  {
    if offset <= |list| {
      WalkIsPages(list, q, offset, limit);
      PagesAreTheList(list, offset, limit);
      assert list[0..] == list;
    } else {
      NextIs(list, q, offset, limit);
      var nothing: seq<T> := [];
      ConcatCons(nothing, []);
      assert [nothing] + [] == [nothing];
    }
  }

  lemma SameRequestSamePage<T>(list: seq<T>, q: Query, q': Query)
    requires ParsePaging(q) == ParsePaging(q') && q.filters == q'.filters
    ensures Serve(list, q) == Serve(list, q')
  {
  }

  /** prev leads back to the page that next was followed from: same rows, same links, same filters. */
  lemma PrevUndoesNext<T>(list: seq<T>, q: Query, offset: nat, limit: nat)
    requires |list| <= MAX_INT && ParsePaging(q) == Ok((offset, limit)) && offset + limit < |list|
    ensures var there := Serve(list, PageAt(list, q, offset, limit).next.value);
            there.Ok? && there.value.prev.Some? && Serve(list, there.value.prev.value) == Serve(list, q)
  {
    NextIs(list, q, offset, limit);
    LinkQueryIs(q, offset + limit, limit);
    LinkQueryIs(q, offset, limit);
    SameRequestSamePage(list, LinkQuery(q, offset, limit), q);
  }

  /**
   next undoes prev exactly when the page began at least a full page into the list; nearer the start, prev goes
   to row 0.
   */
  lemma NextUndoesPrevIff<T>(list: seq<T>, q: Query, offset: nat, limit: nat)
    requires |list| <= MAX_INT && ParsePaging(q) == Ok((offset, limit)) && 0 < offset < |list|
    ensures var p := PageAt(list, q, offset, limit).prev;
            && p.Some? && Serve(list, p.value).Ok?
            && var back := Serve(list, p.value).value.next;
               && (back.Some? && ParsePaging(back.value) == ParsePaging(q) <==> offset >= limit)
               && (offset >= limit ==> Serve(list, back.value) == Serve(list, q))
  {
    var before := if offset < limit then 0 else offset - limit;
    var p := LinkQuery(q, before, limit);
    LinkQueryIs(q, before, limit);
    NextIs(list, p, before, limit);
    if before + limit < |list| {
      LinkQueryIs(p, before + limit, limit);
      if offset >= limit {
        SameRequestSamePage(list, LinkQuery(p, before + limit, limit), q);
      }
    }
  }
}
