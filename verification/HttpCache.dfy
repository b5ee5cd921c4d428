/** The caching HTTP transport (sections 3 and 4 of RFC 9111): what it computes from
    one request, response or entry. Times and durations count nanoseconds; the zero
    time is 0. */
module HttpCache {
  import opened Prelude

  type Body(==, !new)

  /** Header fields under their canonical names. */
  type Header = map<string, seq<string>>

  const NUL: char := 0 as char

  /** A printed URL: control characters are percent-encoded. */
  type Url = s: string | NUL !in s

  datatype Request = Request(verb: string, url: Url, header: Header)
  datatype Response = Response(status: int, header: Header, body: Body)

  datatype Directive =
    | NoStore | NoCache | Private
    | MaxAge(seconds: Option<int>)     // None: not a number, and ignored
    | SMaxAge(seconds: Option<int>)
    | Other

  datatype CacheControl = CacheControl(maxAge: Option<int>, sMaxAge: Option<int>, noStore: bool, noCache: bool, private: bool)

  /** How one field value is read; any functions do. `names` gives the trimmed,
      canonical pieces of a list, empty ones included. */
  datatype Syntax = Syntax(
    directives: string -> seq<Directive>,
    names: string -> seq<string>,
    date: string -> Option<int>,
    integer: string -> Option<int>,
    show: int -> string)

  datatype Config = Config(syntax: Syntax, ttl: int, authorized: bool, fits: Body -> bool)

  /** A stored response. The last two only record history: the exchanges it was built
      from, the first in full and the others its 304s, and when the last arrived. */
  datatype Entry = Entry(
    status: int, header: Header, body: Body, vary: map<string, string>,
    originTime: int, freshUntil: int, history: seq<nat>, received: int)

  const SECOND: int := 1_000_000_000
  const TWO63: int := 0x8000_0000_0000_0000
  const TWO64: int := 0x1_0000_0000_0000_0000

  /** Two's complement wrap-around of 64-bit arithmetic. */
  function Wrap(x: int): int { (x + TWO63) % TWO64 - TWO63 }

  /** A number of seconds as a 64-bit count of nanoseconds. */
  function Seconds(n: int): int { Wrap(n * SECOND) }

  function Values(h: Header, name: string): seq<string> { if name in h then h[name] else [] }

  function Get(h: Header, name: string): string { if name in h && h[name] != [] then h[name][0] else "" }

  // ------------------------------------------------------------ cachepolicy.go

  /** `parseCacheControl`: a later directive overrides an earlier one. */
  function Fold(ds: seq<Directive>): CacheControl {
    if ds == [] then CacheControl(None, None, false, false, false)
    else
      var cc := Fold(ds[..|ds| - 1]);
      match ds[|ds| - 1]
      case NoStore => cc.(noStore := true)
      case NoCache => cc.(noCache := true)
      case Private => cc.(private := true)
      case MaxAge(n) => if n.Some? then cc.(maxAge := Some(Seconds(n.value))) else cc
      case SMaxAge(n) => if n.Some? then cc.(sMaxAge := Some(Seconds(n.value))) else cc
      case Other => cc
  }

  /** The pieces of every field of a header, in order. */
  function Flat<T>(f: string -> seq<T>, fields: seq<string>): seq<T> {
    if fields == [] then [] else Flat(f, fields[..|fields| - 1]) + f(fields[|fields| - 1])
  }

  function Directives(x: Syntax, h: Header): CacheControl { Fold(Flat(x.directives, Values(h, "Cache-Control"))) }

  const CONDITIONALS := ["If-Match", "If-Modified-Since", "If-None-Match", "If-Range", "If-Unmodified-Since", "Range"]

  predicate CacheableRequest(cfg: Config, req: Request) {
    && (req.verb == "GET" || req.verb == "HEAD")
    && (forall name :: name in CONDITIONALS ==> Get(req.header, name) == "")
    && (Get(req.header, "Authorization") != "" ==> cfg.authorized)
    && !Directives(cfg.syntax, req.header).noStore
  }

  predicate MustRevalidate(cfg: Config, req: Request) {
    var cc := Directives(cfg.syntax, req.header);
    cc.noCache || (cc.maxAge.Some? && cc.maxAge.value <= 0)
  }

  predicate Storable(cfg: Config, resp: Response) {
    var cc := Directives(cfg.syntax, resp.header);
    && resp.status in {200, 203, 204, 300, 301, 308, 404, 410}
    && !cc.noStore && !cc.private
    && "*" !in VaryFields(cfg.syntax, resp.header)
    && Values(resp.header, "Set-Cookie") == []
  }

  /** `originTime`: the Date, less the Age it arrived with, or receipt itself
      if there is no Date or a later one. */
  function OriginTime(x: Syntax, h: Header, received: int): int {
    var date := x.date(Get(h, "Date"));
    if date.None? || date.value > received then received
    else
      var age := x.integer(Get(h, "Age"));
      if age.Some? && age.value > 0 then date.value + Seconds(-age.value) else date.value
  }

  /** `freshUntil`: no-cache, s-maxage, max-age, Expires, the configured TTL. */
  function FreshUntil(cfg: Config, h: Header, received: int, origin: int): int {
    var cc := Directives(cfg.syntax, h);
    if cc.noCache then 0
    else if cc.sMaxAge.Some? then origin + cc.sMaxAge.value
    else if cc.maxAge.Some? then origin + cc.maxAge.value
    else
      var expires := cfg.syntax.date(Get(h, "Expires"));
      if expires.Some? then expires.value else if cfg.ttl > 0 then received + cfg.ttl else 0
  }

  function NonEmpty(names: seq<string>): seq<string> {
    if names == [] then []
    else NonEmpty(names[..|names| - 1]) + if names[|names| - 1] == "" then [] else [names[|names| - 1]]
  }

  /** `varyFields`: one "*" anywhere makes the answer unkeyable. */
  function VaryFields(x: Syntax, h: Header): seq<string> {
    var names := Flat(x.names, Values(h, "Vary"));
    if "*" in names then ["*"] else NonEmpty(names)
  }

  // --------------------------------------------------------- cachedresponse.go

  const HOP_BY_HOP := ["Connection", "Keep-Alive", "Proxy-Authenticate", "Proxy-Authorization", "Proxy-Connection",
                     "Te", "Trailer", "Transfer-Encoding", "Upgrade"]

  function StorableHeader(h: Header): Header { map n | n in h && n !in HOP_BY_HOP :: h[n] }

  function VaryValues(x: Syntax, req: Request, h: Header): map<string, string> {
    map n | n in VaryFields(x, h) :: Get(req.header, n)
  }

  function HasValidator(h: Header): bool { Get(h, "Etag") != "" || Get(h, "Last-Modified") != "" }

  predicate Fresh(e: Entry, now: int) { now < e.freshUntil }

  predicate Matches(vary: map<string, string>, req: Request) { forall n :: n in vary ==> Get(req.header, n) == vary[n] }

  function NewEntry(cfg: Config, req: Request, resp: Response, received: int, at: nat): Entry {
    var origin := OriginTime(cfg.syntax, resp.header, received);
    Entry(resp.status, StorableHeader(resp.header), resp.body, VaryValues(cfg.syntax, req, resp.header),
          origin, FreshUntil(cfg, resp.header, received, origin), [at], received)
  }

  /** `refresh` and the recomputation after it: adopt the 304's fields, save the
      connection's own and Content-Length, re-date, and take freshness from the merge. */
  function Refreshed(cfg: Config, e: Entry, h: Header, received: int, at: nat): Entry {
    var merged := Merge(e.header, h);
    var origin := OriginTime(cfg.syntax, h, received);
    e.(header := merged, originTime := origin, freshUntil := FreshUntil(cfg, merged, received, origin),
       history := e.history + [at], received := received)
  }

  function Merge(stored: Header, h: Header): Header { stored + (StorableHeader(h) - {"Content-Length"}) }

  /** The request sent to check an entry: the caller's own, with the entry's validators. */
  function Conditional(req: Request, stored: Header): Request {
    var etag, modified := Get(stored, "Etag"), Get(stored, "Last-Modified");
    var h := if etag != "" then req.header["If-None-Match" := [etag]] else req.header;
    req.(header := if modified != "" then h["If-Modified-Since" := [modified]] else h)
  }

  /** The Age a served entry reports, in seconds; `time.Sub` saturates. */
  function Age(e: Entry, now: int): int {
    var d := now - e.originTime;
    (if d < 0 then 0 else if d > TWO63 - 1 then TWO63 - 1 else d) / SECOND
  }

  // ------------------------------------------------------- cachetransport.go: key

  /** What is hashed into the key; the hash is taken to be injective. */
  function Material(req: Request): string {
    var base := req.verb + [NUL] + req.url;
    var credential := Get(req.header, "Authorization");
    if credential != "" then base + [NUL] + credential else base
  }

  /** A string has only one first NUL. */
  lemma CutAtNul(a: string, b: string, x: string, y: string)
    requires NUL !in a && NUL !in b && a + [NUL] + x == b + [NUL] + y
    ensures a == b && x == y
  {
    var s := a + [NUL] + x;
    assert s[|a|] == NUL && s[|b|] == (b + [NUL] + y)[|b|] == NUL;
    assert forall k :: 0 <= k < |a| ==> s[k] == a[k];
    assert forall k :: 0 <= k < |b| ==> s[k] == (b + [NUL] + y)[k] == b[k];
    assert |a| == |b|;
    assert s[..|a|] == a && (b + [NUL] + y)[..|b|] == b;
    assert s[|a| + 1..] == x && (b + [NUL] + y)[|b| + 1..] == y;
  }

  /** Requests share a key if and only if they share method, URL and credential. */
  lemma KeyIsInjective(p: Request, q: Request)
    requires NUL !in p.verb && NUL !in q.verb
    ensures Material(p) == Material(q) <==>
              p.verb == q.verb && p.url == q.url && Get(p.header, "Authorization") == Get(q.header, "Authorization")
  {
    if Material(p) == Material(q) { SharedKey(p, q); }
  }

  lemma SharedKey(p: Request, q: Request)
    requires NUL !in p.verb && NUL !in q.verb && Material(p) == Material(q)
    ensures p.verb == q.verb && p.url == q.url && Get(p.header, "Authorization") == Get(q.header, "Authorization")
  {
    var c, d := Get(p.header, "Authorization"), Get(q.header, "Authorization");
    var pu := if c != "" then p.url + [NUL] + c else p.url;
    var qu := if d != "" then q.url + [NUL] + d else q.url;
    assert Material(p) == p.verb + [NUL] + pu && Material(q) == q.verb + [NUL] + qu;
    CutAtNul(p.verb, q.verb, pu, qu);
    assert c != "" ==> pu[|p.url|] == NUL;
    assert d != "" ==> qu[|q.url|] == NUL;
    if c != "" && d != "" {
      CutAtNul(p.url, q.url, c, d);
    }
  }

  // ------------------------------------------------------------ properties of one

  /** The Age a header states, in seconds; one that is not positive counts for nothing. */
  function StatedAge(x: Syntax, h: Header): int {
    var age := x.integer(Get(h, "Age"));
    if age.Some? && age.value > 0 then age.value else 0
  }

  /** The instant of origin a header states: Date less Age, as numbers that never
      overflow; receipt, when there is no Date or a later one. */
  function StatedOrigin(x: Syntax, h: Header, received: int): int {
    var date := x.date(Get(h, "Date"));
    if date.None? || date.value > received then received else date.value - StatedAge(x, h) * SECOND
  }

  /** The seconds fit a Duration. */
  predicate Fits(n: int) { Seconds(n) == n * SECOND }

  predicate AgeFits(x: Syntax, h: Header) { Fits(-StatedAge(x, h)) }

  lemma FitsExactly(n: int)
    ensures Fits(n) <==> -9223372036 <= n <= 9223372036
  {
    WrapIsExact(n * SECOND);
  }

  /** How many times 64 bits are overrun in counting the nanoseconds of `n` seconds. */
  function Turns(n: int): int { (n * SECOND + TWO63) / TWO64 }

  lemma TurnsAreLost(n: int)
    ensures Seconds(n) == n * SECOND - Turns(n) * TWO64
    ensures Fits(n) <==> Turns(n) == 0
  {
    var x := n * SECOND + TWO63;
    assert x == x / TWO64 * TWO64 + x % TWO64;
  }

  lemma WrapIsExact(d: int)
    ensures Wrap(d) == d <==> -TWO63 <= d < TWO63
    ensures -TWO63 <= Wrap(d) < TWO63
  {
  }

  /** Where the Age fits, the date computed is the one stated. */
  lemma OriginIsAsStated(x: Syntax, h: Header, received: int)
    requires AgeFits(x, h)
    ensures OriginTime(x, h, received) == StatedOrigin(x, h, received) <= received
  {
  }

  /** What Ages that overflow do: one second past the range dates a response 292 years
      ahead, and twice as many make 584 years read as less than a third of a second. */
  lemma OverflowingAges()
    ensures Seconds(-9223372037) == 9223372036709551616
    ensures Seconds(-18446744074) == -290448384
    ensures !Fits(-9223372037) && !Fits(-18446744074)
  {
    FitsExactly(-9223372037);
    FitsExactly(-18446744074);
  }

  /** The Age overflows, and far enough to date the response after its receipt. */
  predicate DatedAhead(x: Syntax, h: Header, received: int) {
    var date := x.date(Get(h, "Date"));
    date.Some? && date.value <= received && Seconds(-StatedAge(x, h)) > received - date.value
  }

  lemma DatedAheadExactly(x: Syntax, h: Header, received: int)
    ensures DatedAhead(x, h, received) <==> OriginTime(x, h, received) > received
    ensures DatedAhead(x, h, received) ==> !AgeFits(x, h)
  {
  }

  /** Storing a header changes nothing that freshness is read from. */
  lemma StoringKeepsFreshness(cfg: Config, h: Header, received: int, origin: int)
    ensures FreshUntil(cfg, StorableHeader(h), received, origin) == FreshUntil(cfg, h, received, origin)
  {
    assert "Cache-Control" !in HOP_BY_HOP && "Expires" !in HOP_BY_HOP by { NotHopByHop(); }
    assert Values(StorableHeader(h), "Cache-Control") == Values(h, "Cache-Control");
    assert Get(StorableHeader(h), "Expires") == Get(h, "Expires");
  }

  lemma NotHopByHop()
    ensures "Cache-Control" !in HOP_BY_HOP && "Expires" !in HOP_BY_HOP
  {
    assert forall i :: 0 <= i < |HOP_BY_HOP| ==> HOP_BY_HOP[i][0] != 'E';
    assert forall i :: 0 <= i < |HOP_BY_HOP| ==> HOP_BY_HOP[i][1] != 'a';
    assert "Expires"[0] == 'E' && "Cache-Control"[1] == 'a';
  }
}
