/** What the caching transport promises of every answer, over every run. */
module HttpCacheSafety {
  import opened Prelude
  import opened HttpCache
  import opened HttpCacheRuns

  /** What a run of the transport from an empty store can reach. */
  ghost predicate Reachable(cfg: Config, s: State) {
    exists now: nat, actions: seq<Action> :: s == Run(cfg, Init(now), actions)
  }

  lemma Reached(cfg: Config, s: State)
    requires Reachable(cfg, s)
    ensures Inv(cfg, s)
  {
    var now: nat, actions: seq<Action> :| s == Run(cfg, Init(now), actions);
    RunKeeps(cfg, Init(now), actions);
  }

  predicate Served(s: State, t: nat) {
    t in s.flights && s.flights[t].Done? && (s.flights[t].answer.Hit? || s.flights[t].answer.Revalidated?)
  }

  /** Every exchange behind an entry was for its key and variant, and all but the first
      were 304s. */
  lemma {:induction false} ExchangeAt(log: seq<Exchange>, history: seq<nat>, k: string, vary: map<string, string>, j: nat)
    requires Within(log, history) && Confirmed(log, history, k, vary) && j < |history|
    ensures var x := log[history[j]]; Material(x.req) == k && Matches(vary, x.req) && (j > 0 ==> x.resp.status == 304)
  {
    var n := |history| - 1;
    if j < n {
      ExchangeAt(log, history[..n], k, vary, j);
    }
  }

  /** The first NUL of the material ends the method, so a request whose key is that of
      a GET or HEAD is one, and asks for the same URL with the same credential. */
  lemma KeyOfCacheable(cfg: Config, p: Request, q: Request)
    requires CacheableRequest(cfg, p) && Material(p) == Material(q) && NUL !in q.verb
    ensures p.verb == q.verb && p.url == q.url && Get(p.header, "Authorization") == Get(q.header, "Authorization")
  {
    assert NUL !in p.verb;
    KeyIsInjective(p, q);
  }

  /** Whatever the cache answers, it answers with the status and body of one earlier
      full response to a request of the same method, URL and credential, which agreed
      on the first value of every field that response said it varies on. */
  lemma AnswersOnlyWhatTheOriginSaid(cfg: Config, s: State, t: nat)
    requires Reachable(cfg, s) && Served(s, t)
    ensures var q, e := s.flights[t].req, s.flights[t].answer.entry;
      && Within(s.log, e.history)
      && var x := s.log[e.history[0]];
      && x.req.verb == q.verb && x.req.url == q.url
      && Get(x.req.header, "Authorization") == Get(q.header, "Authorization")
      && x.resp.status != 304 && Storable(cfg, x.resp)
      && e.status == x.resp.status && e.body == x.resp.body
      && (forall n :: n in VaryFields(cfg.syntax, x.resp.header) ==> Get(q.header, n) == Get(x.req.header, n))
  {
    Reached(cfg, s);
    assert FlightInv(cfg, s, t);
    var q, e := s.flights[t].req, s.flights[t].answer.entry;
    var x := s.log[e.history[0]];
    ExchangeAt(s.log, e.history, Material(q), e.vary, 0);
    KeyOfCacheable(cfg, x.req, q);
    forall n | n in VaryFields(cfg.syntax, x.resp.header) ensures Get(q.header, n) == Get(x.req.header, n) {
      assert n in e.vary && e.vary[n] == Get(x.req.header, n);
    }
  }

  /** An answer served after a 304 was confirmed by that 304: the origin gave it to this
      very request, sent with the validators of the entry as it was stored and with no
      other difference. */
  lemma RevalidatedByItsOwn304(cfg: Config, s: State, t: nat)
    requires Reachable(cfg, s) && Served(s, t) && s.flights[t].answer.Revalidated?
    ensures var q, e := s.flights[t].req, s.flights[t].answer.entry;
      var n := |e.history| - 1;
      && n > 0 && Within(s.log, e.history)
      && var x, before := s.log[e.history[n]], Headers(s.log, e.history[..n]);
      && x.req == q && x.resp.status == 304
      && e.header == Merge(before, x.resp.header)
      && x.sent.verb == q.verb && x.sent.url == q.url
      && (Get(before, "Etag") != "" || Get(before, "Last-Modified") != "")
      && Get(x.sent.header, "If-None-Match") == Get(before, "Etag")
      && Get(x.sent.header, "If-Modified-Since") == Get(before, "Last-Modified")
      && (forall name :: name != "If-None-Match" && name != "If-Modified-Since" ==>
            Values(x.sent.header, name) == Values(q.header, name))
  {
    Reached(cfg, s);
    assert FlightInv(cfg, s, t);
    var q, e := s.flights[t].req, s.flights[t].answer.entry;
    var n := |e.history| - 1;
    ConditionalAddsValidators(cfg, q, Headers(s.log, e.history[..n]));
  }

  lemma ConditionalAddsValidators(cfg: Config, q: Request, before: Header)
    requires CacheableRequest(cfg, q)
    ensures var sent := Conditional(q, before);
      && sent.verb == q.verb && sent.url == q.url
      && Get(sent.header, "If-None-Match") == Get(before, "Etag")
      && Get(sent.header, "If-Modified-Since") == Get(before, "Last-Modified")
      && (forall name :: name != "If-None-Match" && name != "If-Modified-Since" ==>
            Values(sent.header, name) == Values(q.header, name))
  {
    assert CONDITIONALS[2] == "If-None-Match" && CONDITIONALS[1] == "If-Modified-Since";
    assert Get(q.header, "If-None-Match") == "" && Get(q.header, "If-Modified-Since") == "";
    assert "If-None-Match"[3] != "If-Modified-Since"[3];
  }

  // -------------------------------------------------------------------- freshness

  /** For how long a header lets its response be served, as the code computes it. */
  function Lifetime(cfg: Config, h: Header): Option<int> {
    var cc := Directives(cfg.syntax, h);
    if cc.noCache then None else if cc.sMaxAge.Some? then cc.sMaxAge else cc.maxAge
  }

  /** The seconds of the last numeric directive of a kind. */
  function Said(ds: seq<Directive>, shared: bool): Option<int> {
    if ds == [] then None
    else
      match ds[|ds| - 1]
      case SMaxAge(n) => if shared && n.Some? then n else Said(ds[..|ds| - 1], shared)
      case MaxAge(n) => if !shared && n.Some? then n else Said(ds[..|ds| - 1], shared)
      case _ => Said(ds[..|ds| - 1], shared)
  }

  /** For how long a header says so, in seconds. */
  function StatedSeconds(cfg: Config, h: Header): Option<int> {
    var ds := Flat(cfg.syntax.directives, Values(h, "Cache-Control"));
    if NoCache in ds then None else if Said(ds, true).Some? then Said(ds, true) else Said(ds, false)
  }

  lemma {:induction false} SaidIsKept(ds: seq<Directive>)
    ensures Fold(ds).noCache == (NoCache in ds)
    ensures Fold(ds).sMaxAge == if Said(ds, true).Some? then Some(Seconds(Said(ds, true).value)) else None
    ensures Fold(ds).maxAge == if Said(ds, false).Some? then Some(Seconds(Said(ds, false).value)) else None
  {
    if ds != [] {
      var n := |ds| - 1;
      SaidIsKept(ds[..n]);
      assert ds == ds[..n] + [ds[n]];
    }
  }

  lemma LifetimeOfStated(cfg: Config, h: Header)
    ensures Lifetime(cfg, h) == match StatedSeconds(cfg, h) case None => None case Some(n) => Some(Seconds(n))
  {
    SaidIsKept(Flat(cfg.syntax.directives, Values(h, "Cache-Control")));
  }

  /** The header of the last exchange behind an entry, which dates it. */
  function LastHeader(log: seq<Exchange>, e: Entry): Header
    requires Within(log, e.history)
  {
    log[e.history[|e.history| - 1]].resp.header
  }

  /** The state of freshness at a hit: nothing marked no-cache, the request did not ask
      for the origin's word, and the entry's own header, as last refreshed, still
      vouched for it when the clock was read. */
  lemma HitIsFresh(cfg: Config, s: State, t: nat)
    requires Reachable(cfg, s) && Served(s, t) && s.flights[t].answer.Hit?
    ensures var e, at := s.flights[t].answer.entry, s.flights[t].answer.at;
      && Within(s.log, e.history) && e.header == Headers(s.log, e.history)
      && !Directives(cfg.syntax, e.header).noCache && !MustRevalidate(cfg, s.flights[t].req)
      && e.originTime == OriginTime(cfg.syntax, s.log[e.history[|e.history| - 1]].resp.header, e.received)
      && 0 <= e.received <= at < FreshUntil(cfg, e.header, e.received, e.originTime)
  {
    Reached(cfg, s);
    assert FlightInv(cfg, s, t);
  }

  lemma WrapNeverGrows(n: nat)
    ensures Seconds(n) <= n * SECOND
  {
    var x := n * SECOND;
    assert (x + TWO63) % TWO64 <= x + TWO63 by {
      assert (x + TWO63) == (x + TWO63) / TWO64 * TWO64 + (x + TWO63) % TWO64;
    }
  }

  /** A hit under s-maxage or max-age reports an Age strictly below it, whatever the
      numbers overflow to, as long as the origin allowed at least a second. */
  lemma HitAgeIsBelow(cfg: Config, s: State, t: nat, seconds: int)
    requires Reachable(cfg, s) && Served(s, t) && s.flights[t].answer.Hit?
    requires Lifetime(cfg, s.flights[t].answer.entry.header) == Some(Seconds(seconds)) && seconds > 0
    ensures Age(s.flights[t].answer.entry, s.flights[t].answer.at) < seconds
  {
    HitIsFresh(cfg, s, t);
    WrapNeverGrows(seconds);
  }

  /** Where the Age of the exchange that dated the entry fits a Duration, and the stated
      lifetime is not a negative number that overflowed, a hit comes before the stated
      lifetime is over, counted from when the origin is stated to have answered, and the
      Age reported is the time since then. */
  lemma HitIsWithinLifetime(cfg: Config, s: State, t: nat, seconds: int)
    requires Reachable(cfg, s) && Served(s, t) && s.flights[t].answer.Hit?
    requires StatedSeconds(cfg, s.flights[t].answer.entry.header) == Some(seconds) && -9223372036 <= seconds
    requires var e := s.flights[t].answer.entry; Within(s.log, e.history) ==> AgeFits(cfg.syntax, LastHeader(s.log, e))
    ensures var e, at := s.flights[t].answer.entry, s.flights[t].answer.at;
      && Within(s.log, e.history)
      && var stated := StatedOrigin(cfg.syntax, LastHeader(s.log, e), e.received);
      && stated <= e.received <= at < stated + seconds * SECOND
      && (seconds <= 9223372036 ==> Age(e, at) == (at - stated) / SECOND)
  {
    HitIsFresh(cfg, s, t);
    var e, at := s.flights[t].answer.entry, s.flights[t].answer.at;
    OriginIsAsStated(cfg.syntax, LastHeader(s.log, e), e.received);
    LifetimeOfStated(cfg, e.header);
    if seconds >= 0 { WrapNeverGrows(seconds); } else { FitsExactly(seconds); }
    LifetimeBounds(cfg, e, at, Seconds(seconds));
    FitsExactly(seconds);
  }

  lemma LifetimeBounds(cfg: Config, e: Entry, at: int, lifetime: int)
    requires Lifetime(cfg, e.header) == Some(lifetime) && e.originTime <= e.received <= at
    requires at < FreshUntil(cfg, e.header, e.received, e.originTime)
    ensures 0 <= at - e.received <= at - e.originTime < lifetime
    ensures lifetime < TWO63 ==> Age(e, at) == (at - e.originTime) / SECOND
  {
  }

  /** Over every run: an entry is held for its whole lifetime or longer and still served
      only if the exchange that dated it carried an Age that overflowed so far as to date
      it after its receipt. */
  lemma HeldTooLongOnlyIfDatedAhead(cfg: Config, s: State, t: nat, lifetime: int)
    requires Reachable(cfg, s) && Served(s, t) && s.flights[t].answer.Hit?
    requires Lifetime(cfg, s.flights[t].answer.entry.header) == Some(lifetime)
    ensures var e, at := s.flights[t].answer.entry, s.flights[t].answer.at;
      && Within(s.log, e.history)
      && (at - e.received >= lifetime ==> DatedAhead(cfg.syntax, LastHeader(s.log, e), e.received))
  {
    HitIsFresh(cfg, s, t);
    var e := s.flights[t].answer.entry;
    DatedAheadExactly(cfg.syntax, LastHeader(s.log, e), e.received);
  }

  // ---------------------------------------------------------------- past its time

  /** When a response stops being good by what its header states. */
  function StatedEnd(cfg: Config, h: Header, last: Header, received: int): int
    requires StatedSeconds(cfg, h).Some?
  {
    StatedOrigin(cfg.syntax, last, received) + StatedSeconds(cfg, h).value * SECOND
  }

  /** How many turns of 64 bits are lost in multiplying out the Age, where it counts, and
      the lifetime; an overflowing Age gives a negative number. */
  function LostTurns(cfg: Config, h: Header, last: Header, received: int): int
    requires StatedSeconds(cfg, h).Some?
  {
    var date := cfg.syntax.date(Get(last, "Date"));
    (if date.None? || date.value > received then 0 else Turns(-StatedAge(cfg.syntax, last))) + Turns(StatedSeconds(cfg, h).value)
  }

  /** The end computed is off by that many turns. */
  lemma EndMoves(cfg: Config, h: Header, last: Header, received: int)
    requires StatedSeconds(cfg, h).Some?
    ensures OriginTime(cfg.syntax, last, received) + Seconds(StatedSeconds(cfg, h).value)
         == StatedEnd(cfg, h, last, received) - LostTurns(cfg, h, last, received) * TWO64
  {
    TurnsAreLost(-StatedAge(cfg.syntax, last));
    TurnsAreLost(StatedSeconds(cfg, h).value);
  }

  /** A hit at or after the end its header states. */
  ghost predicate Overstays(cfg: Config, s: State, t: nat) {
    && Served(s, t) && s.flights[t].answer.Hit?
    && var e, at := s.flights[t].answer.entry, s.flights[t].answer.at;
    && Within(s.log, e.history) && StatedSeconds(cfg, e.header).Some?
    && at >= StatedEnd(cfg, e.header, LastHeader(s.log, e), e.received)
  }

  /** The Age takes more turns off than the lifetime puts on, and they carry the end past
      receipt. */
  predicate OverflowExtends(cfg: Config, h: Header, last: Header, received: int)
    requires StatedSeconds(cfg, h).Some?
  {
    var turns := LostTurns(cfg, h, last, received);
    turns < 0 && received < StatedEnd(cfg, h, last, received) - turns * TWO64
  }

  /** Over every run, with any refreshes: only such entries are served past their time. */
  lemma OverstaysOnlyIfExtended(cfg: Config, s: State, t: nat)
    requires Reachable(cfg, s) && Overstays(cfg, s, t)
    ensures var e := s.flights[t].answer.entry; OverflowExtends(cfg, e.header, LastHeader(s.log, e), e.received)
  {
    HitIsFresh(cfg, s, t);
    var e := s.flights[t].answer.entry;
    LifetimeOfStated(cfg, e.header);
    EndMoves(cfg, e.header, LastHeader(s.log, e), e.received);
  }

  /** And no entry is one whose numbers fit. */
  lemma FittingNeverExtends(cfg: Config, h: Header, last: Header, received: int)
    requires StatedSeconds(cfg, h).Some? && AgeFits(cfg.syntax, last) && -9223372036 <= StatedSeconds(cfg, h).value
    ensures !OverflowExtends(cfg, h, last, received)
  {
    TurnsAreLost(-StatedAge(cfg.syntax, last));
  }

  // ------------------------------------------------------------ header provenance

  /** Which exchange a field of the merged header comes from: the last 304 that had it,
      else the first response; always the first for Content-Length. */
  function Latest(log: seq<Exchange>, history: seq<nat>, name: string): (i: nat)
    requires Within(log, history)
    ensures i in history
  {
    var n := |history| - 1;
    if n == 0 then history[0]
    else if name != "Content-Length" && name in log[history[n]].resp.header then history[n]
    else assert history[..n][0] == history[0]; Latest(log, history[..n], name)
  }

  /** No field is invented: each is, value for value, what the latest exchange to state
      it stated, and none belongs to a connection. */
  lemma {:induction false} FieldsComeFromTheOrigin(log: seq<Exchange>, history: seq<nat>, name: string)
    requires Within(log, history)
    ensures var h := log[Latest(log, history, name)].resp.header;
      && (name in Headers(log, history) <==> name in h && name !in HOP_BY_HOP)
      && (name in Headers(log, history) ==> Headers(log, history)[name] == h[name])
  {
    var n := |history| - 1;
    if n > 0 {
      FieldsComeFromTheOrigin(log, history[..n], name);
    }
  }
}
