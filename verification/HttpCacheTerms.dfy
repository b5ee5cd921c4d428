/** What the transport's decisions come to in the words of the headers: which requests
    and responses the cache is for, how long an answer is good, and what is done with one
    that no longer is. */
module HttpCacheTerms {
  import opened Prelude
  import opened HttpCache
  import opened HttpCachePolicy
  import opened HttpCacheRuns
  import opened HttpCacheSafety
  import opened HttpCacheServing

  /** The directives of all Cache-Control fields, in order. */
  function Listed(x: Syntax, h: Header): seq<Directive> { Flat(x.directives, Values(h, "Cache-Control")) }

  /** The requests the cache is for. */
  lemma CacheableMeans(cfg: Config, req: Request)
    ensures CacheableRequest(cfg, req) <==>
      && (req.verb == "GET" || req.verb == "HEAD")
      && Get(req.header, "If-Match") == Get(req.header, "If-None-Match") == Get(req.header, "If-Modified-Since") == ""
      && Get(req.header, "If-Unmodified-Since") == Get(req.header, "If-Range") == Get(req.header, "Range") == ""
      && (Get(req.header, "Authorization") != "" ==> cfg.authorized)
      && NoStore !in Listed(cfg.syntax, req.header)
  {
    DirectivesMean(Listed(cfg.syntax, req.header), false, 0);
    assert CONDITIONALS[0] == "If-Match" && CONDITIONALS[1] == "If-Modified-Since" && CONDITIONALS[2] == "If-None-Match";
    assert CONDITIONALS[3] == "If-Range" && CONDITIONALS[4] == "If-Unmodified-Since" && CONDITIONALS[5] == "Range";
  }

  /** The responses it may store. */
  lemma StorableMeans(cfg: Config, resp: Response)
    ensures Storable(cfg, resp) <==>
      && (resp.status == 200 || resp.status == 203 || resp.status == 204 || resp.status == 300
          || resp.status == 301 || resp.status == 308 || resp.status == 404 || resp.status == 410)
      && NoStore !in Listed(cfg.syntax, resp.header) && Private !in Listed(cfg.syntax, resp.header)
      && "*" !in Flat(cfg.syntax.names, Values(resp.header, "Vary"))
      && Values(resp.header, "Set-Cookie") == []
  {
    DirectivesMean(Listed(cfg.syntax, resp.header), false, 0);
    VaryMeans(cfg.syntax, resp.header, "*");
  }

  /** And those it does store. */
  lemma KeptMeans(cfg: Config, resp: Response, now: int)
    ensures var until := FreshUntil(cfg, resp.header, now, OriginTime(cfg.syntax, resp.header, now));
      Kept(cfg, resp, now) <==>
        && (resp.status == 200 || resp.status == 203 || resp.status == 204 || resp.status == 300
            || resp.status == 301 || resp.status == 308 || resp.status == 404 || resp.status == 410)
        && NoStore !in Listed(cfg.syntax, resp.header) && Private !in Listed(cfg.syntax, resp.header)
        && "*" !in Flat(cfg.syntax.names, Values(resp.header, "Vary"))
        && Values(resp.header, "Set-Cookie") == []
        && (until != 0 || Get(resp.header, "Etag") != "" || Get(resp.header, "Last-Modified") != "")
        && cfg.fits(resp.body)
  {
    StorableMeans(cfg, resp);
  }

  /** The requests that insist on the origin's word. */
  lemma MustRevalidateMeans(cfg: Config, req: Request)
    ensures MustRevalidate(cfg, req) <==>
      || NoCache in Listed(cfg.syntax, req.header)
      || (Said(Listed(cfg.syntax, req.header), false).Some? && Seconds(Said(Listed(cfg.syntax, req.header), false).value) <= 0)
  {
    SaidIsKept(Listed(cfg.syntax, req.header));
  }

  /** Until when a header lets its response be served: never under no-cache; by s-maxage
      before max-age, from the origin time; else by Expires; else for the configured time
      from receipt, if there is one. */
  lemma FreshUntilMeans(cfg: Config, h: Header, received: int, origin: int)
    ensures var ds, until := Listed(cfg.syntax, h), FreshUntil(cfg, h, received, origin);
      var expires := cfg.syntax.date(Get(h, "Expires"));
      && (NoCache in ds ==> until == 0)
      && (NoCache !in ds && Said(ds, true).Some? ==> until == origin + Seconds(Said(ds, true).value))
      && (NoCache !in ds && Said(ds, true).None? && Said(ds, false).Some? ==> until == origin + Seconds(Said(ds, false).value))
      && (NoCache !in ds && Said(ds, true).None? && Said(ds, false).None? ==>
            && (expires.Some? ==> until == expires.value)
            && (expires.None? && cfg.ttl > 0 ==> until == received + cfg.ttl)
            && (expires.None? && cfg.ttl <= 0 ==> until == 0))
  {
    SaidIsKept(Listed(cfg.syntax, h));
  }

  /** The fields that belong to a connection, and so are neither stored nor served. */
  lemma ConnectionFields(name: string)
    ensures name in HOP_BY_HOP <==>
      || name == "Connection" || name == "Keep-Alive" || name == "Proxy-Authenticate" || name == "Proxy-Authorization"
      || name == "Proxy-Connection" || name == "Te" || name == "Trailer" || name == "Transfer-Encoding" || name == "Upgrade"
  {
    assert HOP_BY_HOP[0] == "Connection" && HOP_BY_HOP[1] == "Keep-Alive" && HOP_BY_HOP[2] == "Proxy-Authenticate";
    assert HOP_BY_HOP[3] == "Proxy-Authorization" && HOP_BY_HOP[4] == "Proxy-Connection" && HOP_BY_HOP[5] == "Te";
    assert HOP_BY_HOP[6] == "Trailer" && HOP_BY_HOP[7] == "Transfer-Encoding" && HOP_BY_HOP[8] == "Upgrade";
  }

  // -------------------------------------------------------------- over every run

  /** Nothing is ever answered from the cache that a response asked not to be stored, or
      to a request the cache is not for: whatever ran before, with whatever evictions. */
  lemma OnlyTheAllowedIsServed(cfg: Config, s: State, t: nat)
    requires Reachable(cfg, s) && Served(s, t)
    ensures var q, e := s.flights[t].req, s.flights[t].answer.entry;
      && Within(s.log, e.history)
      && var x := s.log[e.history[0]];
      && (x.resp.status == 200 || x.resp.status == 203 || x.resp.status == 204 || x.resp.status == 300
          || x.resp.status == 301 || x.resp.status == 308 || x.resp.status == 404 || x.resp.status == 410)
      && NoStore !in Listed(cfg.syntax, x.resp.header) && Private !in Listed(cfg.syntax, x.resp.header)
      && "*" !in Flat(cfg.syntax.names, Values(x.resp.header, "Vary"))
      && Values(x.resp.header, "Set-Cookie") == []
      && NoStore !in Listed(cfg.syntax, x.req.header) && NoStore !in Listed(cfg.syntax, q.header)
      && (q.verb == "GET" || q.verb == "HEAD")
      && (Get(q.header, "Authorization") != "" ==> cfg.authorized)
  {
    Reached(cfg, s);
    assert FlightInv(cfg, s, t);
    var q, x := s.flights[t].req, s.log[s.flights[t].answer.entry.history[0]];
    StorableMeans(cfg, x.resp);
    CacheableMeans(cfg, q);
    CacheableMeans(cfg, x.req);
  }

  /** And nothing else is stored. */
  lemma OnlyTheAllowedIsStored(cfg: Config, s: State, k: string)
    requires Reachable(cfg, s) && k in s.store
    ensures var e := s.store[k];
      && Within(s.log, e.history)
      && var x := s.log[e.history[0]];
      && Material(x.req) == k
      && NoStore !in Listed(cfg.syntax, x.resp.header) && Private !in Listed(cfg.syntax, x.resp.header)
      && "*" !in Flat(cfg.syntax.names, Values(x.resp.header, "Vary"))
      && Values(x.resp.header, "Set-Cookie") == [] && NoStore !in Listed(cfg.syntax, x.req.header)
  {
    Reached(cfg, s);
    assert StoreInv(cfg, s, k);
    var e := s.store[k];
    ExchangeAt(s.log, e.history, k, e.vary, 0);
    StorableMeans(cfg, s.log[e.history[0]].resp);
    CacheableMeans(cfg, s.log[e.history[0]].req);
  }

  /** Exactly what a round trip that found nothing leaves in the store. */
  lemma StoresExactlyTheAllowed(cfg: Config, s: State, t: nat, req: Request, resp: Response)
    requires t !in s.flights && CacheableRequest(cfg, req)
    ensures var r, ds := Run(cfg, s, Fetch(t, req, resp)), Listed(cfg.syntax, resp.header);
      var until := FreshUntil(cfg, resp.header, s.now, OriginTime(cfg.syntax, resp.header, s.now));
      && r.log == s.log + [Exchange(req, req, resp)] && r.flights == s.flights[t := Done(req, Passed(|s.log|))]
      && r.store ==
        if && (resp.status == 200 || resp.status == 203 || resp.status == 204 || resp.status == 300
               || resp.status == 301 || resp.status == 308 || resp.status == 404 || resp.status == 410)
           && NoStore !in ds && Private !in ds
           && "*" !in Flat(cfg.syntax.names, Values(resp.header, "Vary"))
           && Values(resp.header, "Set-Cookie") == []
           && (until != 0 || Get(resp.header, "Etag") != "" || Get(resp.header, "Last-Modified") != "")
           && cfg.fits(resp.body)
        then s.store[Material(req) := NewEntry(cfg, req, resp, s.now, |s.log|)]
        else s.store
  {
    FetchStores(cfg, s, t, req, resp);
    StorableMeans(cfg, resp);
  }

  /** A hit is for a request that did not insist on the origin's word, and comes before
      the end its entry's header gives in its own words. */
  lemma HitIsAllowed(cfg: Config, s: State, t: nat)
    requires Reachable(cfg, s) && Served(s, t) && s.flights[t].answer.Hit?
    ensures var q, e, at := s.flights[t].req, s.flights[t].answer.entry, s.flights[t].answer.at;
      var asked, ds := Listed(cfg.syntax, q.header), Listed(cfg.syntax, e.header);
      var expires := cfg.syntax.date(Get(e.header, "Expires"));
      && NoCache !in asked && (Said(asked, false).Some? ==> Seconds(Said(asked, false).value) > 0)
      && NoCache !in ds
      && (Said(ds, true).Some? ==> at < e.originTime + Seconds(Said(ds, true).value))
      && (Said(ds, true).None? && Said(ds, false).Some? ==> at < e.originTime + Seconds(Said(ds, false).value))
      && (Said(ds, true).None? && Said(ds, false).None? ==>
            if expires.Some? then at < expires.value else cfg.ttl > 0 && at < e.received + cfg.ttl)
  {
    HitIsFresh(cfg, s, t);
    var q, e := s.flights[t].req, s.flights[t].answer.entry;
    MustRevalidateMeans(cfg, q);
    FreshUntilMeans(cfg, e.header, e.received, e.originTime);
  }

  // ------------------------------------------------------- what is not answered at once

  /** A request the cache is not for goes to the origin as it is, and changes nothing in
      the store. */
  lemma OthersPassThrough(cfg: Config, s: State, t: nat, req: Request, resp: Response)
    requires t !in s.flights && !CacheableRequest(cfg, req)
    ensures var a := s.(flights := s.flights[t := Passing(req)]);
      && Next(cfg, s, Act(t, Arrive(req))) == a
      && Next(cfg, a, Act(t, Respond(resp))) ==
           s.(log := s.log + [Exchange(req, req, resp)], flights := s.flights[t := Done(req, Passed(|s.log|))])
      && Next(cfg, a, Act(t, WireFails)) == s.(flights := s.flights[t := Done(req, Failed)])
  {
    var a := s.(flights := s.flights[t := Passing(req)]);
    assert a.flights[t := Done(req, Passed(|s.log|))] == s.flights[t := Done(req, Passed(|s.log|))];
    assert a.flights[t := Done(req, Failed)] == s.flights[t := Done(req, Failed)];
  }

  /** A request that finds nothing goes to the origin as it is. One that finds an entry it
      cannot be answered with goes with the entry's validators, if it has any. */
  lemma StaleIsChecked(cfg: Config, s: State, t: nat)
    requires t in s.flights && s.flights[t].Held?
    ensures var req, found := s.flights[t].req, s.flights[t].found;
      var z := Next(cfg, s, Act(t, Decide));
      && z == s.(flights := s.flights[t := z.flights[t]])
      && match found
         case None => z.flights[t] == Sent(req, req, None)
         case Some(e) =>
           var etag, modified := Get(e.header, "Etag"), Get(e.header, "Last-Modified");
           if s.now < e.freshUntil && !MustRevalidate(cfg, req) then z.flights[t] == Done(req, Hit(e, s.now))
           else if etag == "" && modified == "" then z.flights[t] == Sent(req, req, None)
           else
             && z.flights[t].Sent? && z.flights[t].req == req && z.flights[t].held == Some(e)
             && z.flights[t].sent.verb == req.verb && z.flights[t].sent.url == req.url
             && Values(z.flights[t].sent.header, "If-None-Match") == (if etag != "" then [etag] else Values(req.header, "If-None-Match"))
             && Values(z.flights[t].sent.header, "If-Modified-Since") ==
                  (if modified != "" then [modified] else Values(req.header, "If-Modified-Since"))
             && (forall n :: n != "If-None-Match" && n != "If-Modified-Since" ==>
                   Values(z.flights[t].sent.header, n) == Values(req.header, n))
  {
    assert "If-None-Match"[3] != "If-Modified-Since"[3];
  }

  /** The origin's answer to such a check: a 304 has the entry served, and written back,
      with the fields it stated folded in; anything else is passed on, and stored in the
      entry's place if it may be. */
  lemma CheckIsAnswered(cfg: Config, s: State, t: nat)
    requires t in s.flights && s.flights[t].Received? && s.flights[t].exchange < |s.log| && s.flights[t].held.Some?
    ensures var f, e := s.flights[t], s.flights[t].held.value;
      var resp := s.log[f.exchange].resp;
      var z := Next(cfg, s, Act(t, Judge));
      && z == s.(flights := s.flights[t := z.flights[t]])
      && if resp.status == 304 then
           && z.flights[t].Writing? && z.flights[t].req == f.req
           && var m := z.flights[t].entry;
           && z.flights[t].answer == Revalidated(m, s.now)
           && m.status == e.status && m.body == e.body && m.vary == e.vary && m.received == s.now
           && m.originTime == OriginTime(cfg.syntax, resp.header, s.now)
           && m.freshUntil == FreshUntil(cfg, m.header, s.now, m.originTime)
           && (forall n :: Values(m.header, n) ==
                 if n in resp.header && n !in HOP_BY_HOP && n != "Content-Length" then resp.header[n] else Values(e.header, n))
         else if Kept(cfg, resp, s.now) then z.flights[t] == Writing(f.req, NewEntry(cfg, f.req, resp, s.now, f.exchange), Passed(f.exchange))
         else z.flights[t] == Done(f.req, Passed(f.exchange))
  {
  }

  /** The write ends the round trip with the answer it had, whether or not it lands. */
  lemma WriteEnds(cfg: Config, s: State, t: nat, landed: bool)
    requires t in s.flights && s.flights[t].Writing?
    ensures var f := s.flights[t];
      Next(cfg, s, Act(t, Write(landed))) ==
        State(s.now, if landed then s.store[Material(f.req) := f.entry] else s.store, s.flights[t := Done(f.req, f.answer)], s.log)
  {
  }

  /** Looking finds what is stored under the request's key, unless the store cannot be
      read or the entry is of another variant. */
  lemma LookFinds(cfg: Config, s: State, t: nat, readable: bool)
    requires t in s.flights && s.flights[t].Looking?
    ensures var req, k := s.flights[t].req, Material(s.flights[t].req);
      var usable := readable && k in s.store && forall n :: n in s.store[k].vary ==> Get(req.header, n) == s.store[k].vary[n];
      Next(cfg, s, Act(t, Look(readable))) == s.(flights := s.flights[t := Held(req, if usable then Some(s.store[k]) else None)])
  {
  }

  /** The Age reported is the time since the origin time in whole seconds, none before it,
      as far as a Duration counts. */
  lemma AgeMeans(e: Entry, now: int)
    ensures now < e.originTime ==> Age(e, now) == 0
    ensures 0 <= now - e.originTime < TWO63 ==> Age(e, now) * SECOND <= now - e.originTime < (Age(e, now) + 1) * SECOND
    ensures TWO63 <= now - e.originTime ==> Age(e, now) == 9223372036
  {
  }

  // ------------------------------------------------------------ what a 304 brings in

  /** Although no response that sets a cookie is stored, a 304 that sets one is folded in
      like any other: an entry holds a Set-Cookie if and only if a 304 behind it had one. */
  lemma {:induction false} CookiesComeWithRefreshes(log: seq<Exchange>, history: seq<nat>)
    requires Within(log, history) && "Set-Cookie" !in log[history[0]].resp.header
    ensures "Set-Cookie" in Headers(log, history) <==>
              exists j :: 0 < j < |history| && "Set-Cookie" in log[history[j]].resp.header
  {
    var n := |history| - 1;
    ConnectionFields("Set-Cookie");
    assert "Set-Cookie"[0] == 'S' && "Content-Length"[0] == 'C';
    if n > 0 {
      CookiesComeWithRefreshes(log, history[..n]);
      if j :| 0 < j < |history| && "Set-Cookie" in log[history[j]].resp.header {
        if j < n { assert history[..n][j] == history[j]; }
      }
    }
  }
}
