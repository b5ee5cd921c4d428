/** The other half: what is stored is served, exactly while it is fresh; and what Ages
    and lifetimes that overflow do to that. */
module HttpCacheServing {
  import opened Prelude
  import opened HttpCache
  import opened HttpCacheRuns
  import opened HttpCacheSafety

  lemma RunThen(cfg: Config, s: State, actions: seq<Action>, a: Action)
    ensures Run(cfg, s, actions + [a]) == Next(cfg, Run(cfg, s, actions), a)
  {
    assert (actions + [a])[..|actions|] == actions;
  }

  function Answered(t: nat, req: Request, resp: Response): seq<Action> {
    [] + [Act(t, Arrive(req))] + [Act(t, Look(false))] + [Act(t, Decide)] + [Act(t, Respond(resp))]
  }

  /** A round trip that finds nothing, is answered and lands in the store. */
  function Fetch(t: nat, req: Request, resp: Response): seq<Action> {
    Answered(t, req, resp) + [Act(t, Judge)] + [Act(t, Write(true))]
  }

  /** A round trip up to the decision whether the store can answer it. */
  function Ask(before: seq<Action>, t: nat, req: Request): seq<Action> {
    before + [Act(t, Arrive(req))] + [Act(t, Look(true))] + [Act(t, Decide)]
  }

  lemma AnsweredIsReceived(cfg: Config, s: State, t: nat, req: Request, resp: Response)
    requires t !in s.flights && CacheableRequest(cfg, req)
    ensures Run(cfg, s, Answered(t, req, resp)) ==
      s.(log := s.log + [Exchange(req, req, resp)], flights := s.flights[t := Received(req, None, |s.log|)])
  {
    var a0: seq<Action> := [];
    RunThen(cfg, s, a0, Act(t, Arrive(req)));
    var a1 := a0 + [Act(t, Arrive(req))];
    RunThen(cfg, s, a1, Act(t, Look(false)));
    var a2 := a1 + [Act(t, Look(false))];
    RunThen(cfg, s, a2, Act(t, Decide));
    var a3 := a2 + [Act(t, Decide)];
    RunThen(cfg, s, a3, Act(t, Respond(resp)));
    assert s.flights[t := Looking(req)][t := Held(req, None)][t := Sent(req, req, None)][t := Received(req, None, |s.log|)]
        == s.flights[t := Received(req, None, |s.log|)];
  }

  /** A cacheable request's response is stored if and only if it is one to keep. */
  lemma FetchStores(cfg: Config, s: State, t: nat, req: Request, resp: Response)
    requires t !in s.flights && CacheableRequest(cfg, req)
    ensures var r := Run(cfg, s, Fetch(t, req, resp));
      && r.now == s.now && r.log == s.log + [Exchange(req, req, resp)]
      && r.flights == s.flights[t := Done(req, Passed(|s.log|))]
      && r.store == (if Kept(cfg, resp, s.now)
                     then s.store[Material(req) := NewEntry(cfg, req, resp, s.now, |s.log|)] else s.store)
  {
    AnsweredIsReceived(cfg, s, t, req, resp);
    var a4 := Answered(t, req, resp);
    RunThen(cfg, s, a4, Act(t, Judge));
    RunThen(cfg, s, a4 + [Act(t, Judge)], Act(t, Write(true)));
  }

  /** A request whose key and variant have an entry is answered with it, asking nobody,
      if and only if it is fresh and the request accepts that. */
  lemma AskServes(cfg: Config, s: State, before: seq<Action>, t: nat, req: Request)
    requires var r := Run(cfg, s, before);
      t !in r.flights && CacheableRequest(cfg, req) && Material(req) in r.store && Matches(r.store[Material(req)].vary, req)
    ensures var r, after := Run(cfg, s, before), Run(cfg, s, Ask(before, t, req));
      var e := r.store[Material(req)];
      && after.log == r.log && after.store == r.store && t in after.flights
      && (after.flights[t] == Done(req, Hit(e, r.now)) <==> !MustRevalidate(cfg, req) && r.now < e.freshUntil)
  {
    RunThen(cfg, s, before, Act(t, Arrive(req)));
    var a1 := before + [Act(t, Arrive(req))];
    RunThen(cfg, s, a1, Act(t, Look(true)));
    var a2 := a1 + [Act(t, Look(true))];
    RunThen(cfg, s, a2, Act(t, Decide));
  }

  /** A run in which `p` is fetched from the origin, which says `resp`, and then only
      the clock moves. */
  lemma FetchAndWait(cfg: Config, now: nat, p: Request, resp: Response, wait: nat) returns (before: seq<Action>)
    requires CacheableRequest(cfg, p) && Kept(cfg, resp, now)
    ensures var r := Run(cfg, Init(now), before);
      && r.now == now + wait && r.log == [Exchange(p, p, resp)] && 1 !in r.flights
      && Material(p) in r.store && r.store[Material(p)] == NewEntry(cfg, p, resp, now, 0)
  {
    FetchStores(cfg, Init(now), 0, p, resp);
    RunThen(cfg, Init(now), Fetch(0, p, resp), Tick(wait));
    before := Fetch(0, p, resp) + [Tick(wait)];
  }

  /** `q` asks for what `p` was answered with, and accepts it from the cache. */
  predicate Asks(cfg: Config, p: Request, resp: Response, q: Request) {
    && CacheableRequest(cfg, q) && !MustRevalidate(cfg, q) && Material(q) == Material(p)
    && Matches(VaryValues(cfg.syntax, p, resp.header), q)
  }

  /** What the first request left in the store serves the second, exactly until the
      instant its header, Age and Date allow. */
  lemma EntryServesWhileFresh(cfg: Config, s: State, before: seq<Action>, p: Request, resp: Response, received: int, at: nat, q: Request)
    requires Asks(cfg, p, resp, q)
    requires var r := Run(cfg, s, before);
      1 !in r.flights && Material(p) in r.store && r.store[Material(p)] == NewEntry(cfg, p, resp, received, at)
    ensures var r, after := Run(cfg, s, before), Run(cfg, s, Ask(before, 1, q));
      && after.log == r.log && 1 in after.flights
      && (after.flights[1] == Done(q, Hit(NewEntry(cfg, p, resp, received, at), r.now)) <==>
            r.now < FreshUntil(cfg, resp.header, received, OriginTime(cfg.syntax, resp.header, received)))
  {
    AskServes(cfg, s, before, 1, q);
  }

  /** A kept response is served to every request of its key and variant exactly until
      the instant its header, Age and Date allow: fetched, and asked for `wait` later. */
  lemma ServedExactlyWhileFresh(cfg: Config, now: nat, p: Request, resp: Response, wait: nat, q: Request) returns (before: seq<Action>)
    requires CacheableRequest(cfg, p) && Kept(cfg, resp, now) && Asks(cfg, p, resp, q)
    ensures var r, s := Run(cfg, Init(now), before), Run(cfg, Init(now), Ask(before, 1, q));
      && r.now == now + wait && r.log == [Exchange(p, p, resp)]
      && s.log == r.log && 1 in s.flights
      && (s.flights[1] == Done(q, Hit(NewEntry(cfg, p, resp, now, 0), now + wait)) <==>
            now + wait < FreshUntil(cfg, resp.header, now, OriginTime(cfg.syntax, resp.header, now)))
  {
    before := FetchAndWait(cfg, now, p, resp, wait);
    EntryServesWhileFresh(cfg, Init(now), before, p, resp, now, 0, q);
  }

  // ---------------------------------------------------------------------- overflow

  /** Some run serves this response, received then and not refreshed since, at or after
      the end its header states. */
  ghost predicate CanOverstay(cfg: Config, resp: Response, received: int) {
    exists s: State, t: nat :: ServedPast(cfg, s, t, resp, received)
  }

  ghost predicate ServedPast(cfg: Config, s: State, t: nat, resp: Response, received: int) {
    && Reachable(cfg, s) && Overstays(cfg, s, t)
    && var e := s.flights[t].answer.entry;
    |e.history| == 1 && s.log[e.history[0]].resp == resp && e.received == received
  }

  lemma StoringKeepsStatement(cfg: Config, h: Header)
    ensures StatedSeconds(cfg, StorableHeader(h)) == StatedSeconds(cfg, h)
  {
    assert "Cache-Control" !in HOP_BY_HOP by { NotHopByHop(); }
    assert Values(StorableHeader(h), "Cache-Control") == Values(h, "Cache-Control");
  }

  lemma RunReaches(cfg: Config, now: nat, actions: seq<Action>)
    ensures Reachable(cfg, Run(cfg, Init(now), actions))
  {
  }

  /** A run that serves a response worth keeping `wait` after it was received. */
  lemma ServeLater(cfg: Config, p: Request, q: Request, resp: Response, received: nat, wait: nat) returns (s: State)
    requires CacheableRequest(cfg, p) && Kept(cfg, resp, received) && Asks(cfg, p, resp, q)
    requires received + wait < FreshUntil(cfg, resp.header, received, OriginTime(cfg.syntax, resp.header, received))
    ensures Reachable(cfg, s) && 1 in s.flights && s.log == [Exchange(p, p, resp)]
    ensures s.flights[1] == Done(q, Hit(NewEntry(cfg, p, resp, received, 0), received + wait))
  {
    var before := ServedExactlyWhileFresh(cfg, received, p, resp, wait, q);
    s := Run(cfg, Init(received), Ask(before, 1, q));
    RunReaches(cfg, received, Ask(before, 1, q));
  }

  lemma ExtendedOverstays(cfg: Config, p: Request, q: Request, resp: Response, received: nat)
    requires CacheableRequest(cfg, p) && Kept(cfg, resp, received) && Asks(cfg, p, resp, q)
    requires StatedSeconds(cfg, resp.header).Some? && OverflowExtends(cfg, resp.header, resp.header, received)
    ensures CanOverstay(cfg, resp, received)
  {
    var stated := StatedEnd(cfg, resp.header, resp.header, received);
    var wait := if stated > received then stated - received else 0;
    LifetimeOfStated(cfg, resp.header);
    EndMoves(cfg, resp.header, resp.header, received);
    StoringKeepsStatement(cfg, resp.header);
    var s := ServeLater(cfg, p, q, resp, received, wait);
    assert ServedPast(cfg, s, 1, resp, received);
  }

  lemma PastIsExtended(cfg: Config, s: State, t: nat, resp: Response, received: int)
    requires ServedPast(cfg, s, t, resp, received) && StatedSeconds(cfg, resp.header).Some?
    ensures OverflowExtends(cfg, resp.header, resp.header, received)
  {
    StoringKeepsStatement(cfg, resp.header);
    OverstaysOnlyIfExtended(cfg, s, t);
    HitIsFresh(cfg, s, t);
  }

  /** The exact condition under which a stored response can be served past its time, on
      any run: the Age loses more turns of 64 bits than the lifetime, and that many put
      the end it states past its receipt. */
  lemma OnlyOverflowsOverstay(cfg: Config, p: Request, q: Request, resp: Response, received: nat)
    requires CacheableRequest(cfg, p) && Kept(cfg, resp, received) && Asks(cfg, p, resp, q)
    requires StatedSeconds(cfg, resp.header).Some?
    ensures CanOverstay(cfg, resp, received) <==> OverflowExtends(cfg, resp.header, resp.header, received)
  {
    if OverflowExtends(cfg, resp.header, resp.header, received) {
      ExtendedOverstays(cfg, p, q, resp, received);
    }
    forall s: State, t: nat | ServedPast(cfg, s, t, resp, received)
      ensures OverflowExtends(cfg, resp.header, resp.header, received)
    {
      PastIsExtended(cfg, s, t, resp, received);
    }
  }

  /** Two Ages that do it to a response dated now and good for a minute: one dates it 292
      years ahead, the other, 584 years, wraps back and is read as nearly nothing. */
  lemma TwoAgesThatExtend(cfg: Config, h: Header, received: int, age: int)
    requires StatedSeconds(cfg, h) == Some(60) && cfg.syntax.date(Get(h, "Date")) == Some(received)
    requires cfg.syntax.integer(Get(h, "Age")) == Some(age) && age in {9223372037, 18446744074}
    ensures OverflowExtends(cfg, h, h, received)
    ensures DatedAhead(cfg.syntax, h, received) <==> age == 9223372037
  {
    OverflowingAges();
    FitsExactly(60);
  }

  ghost predicate HeldPast(cfg: Config, s: State, t: nat, resp: Response, received: int, lifetime: int) {
    && Reachable(cfg, s) && Served(s, t) && s.flights[t].answer.Hit?
    && var e := s.flights[t].answer.entry;
    && Within(s.log, e.history) && |e.history| == 1 && s.log[e.history[0]].resp == resp && e.received == received
    && s.flights[t].answer.at - received >= lifetime
  }

  /** And the exact condition, on any run, under which it can be served when held for its
      whole lifetime or longer: an Age that overflowed far enough to date it after its
      receipt. */
  lemma OnlyDatedAheadIsHeldPast(cfg: Config, p: Request, q: Request, resp: Response, received: nat, lifetime: nat)
    requires CacheableRequest(cfg, p) && Kept(cfg, resp, received) && Asks(cfg, p, resp, q)
    requires Lifetime(cfg, resp.header) == Some(lifetime)
    ensures (exists s: State, t: nat :: HeldPast(cfg, s, t, resp, received, lifetime)) <==> DatedAhead(cfg.syntax, resp.header, received)
  {
    DatedAheadExactly(cfg.syntax, resp.header, received);
    StoringKeepsLifetime(cfg, resp.header);
    if DatedAhead(cfg.syntax, resp.header, received) {
      var s := ServeLater(cfg, p, q, resp, received, lifetime);
      assert HeldPast(cfg, s, 1, resp, received, lifetime);
    }
    forall s: State, t: nat | HeldPast(cfg, s, t, resp, received, lifetime)
      ensures DatedAhead(cfg.syntax, resp.header, received)
    {
      HitIsFresh(cfg, s, t);
      HeldTooLongOnlyIfDatedAhead(cfg, s, t, lifetime);
    }
  }

  lemma StoringKeepsLifetime(cfg: Config, h: Header)
    ensures Lifetime(cfg, StorableHeader(h)) == Lifetime(cfg, h)
  {
    StoringKeepsStatement(cfg, h);
    LifetimeOfStated(cfg, h);
    LifetimeOfStated(cfg, StorableHeader(h));
  }
}
