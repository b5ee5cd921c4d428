/** Which requests the stored answer to another request reaches, where the response
    varies: a request field is compared by its first value only. */
module HttpCacheVariants {
  import opened Prelude
  import opened HttpCache
  import opened HttpCacheRuns
  import opened HttpCacheSafety
  import opened HttpCacheServing

  /** Request `q` is answered from the cache with what `resp` said to request `p`. */
  ghost predicate Reuses(cfg: Config, s: State, t: nat, p: Request, resp: Response, q: Request) {
    && Reachable(cfg, s) && Served(s, t) && s.flights[t].req == q
    && var e := s.flights[t].answer.entry;
       Within(s.log, e.history) && s.log[e.history[0]].req == p && s.log[e.history[0]].resp == resp
  }

  predicate FirstsAgree(x: Syntax, p: Request, q: Request, h: Header) {
    forall n :: n in VaryFields(x, h) ==> Get(q.header, n) == Get(p.header, n)
  }

  /** The requests agree line for line on every field the response varies on. */
  predicate SameVariant(x: Syntax, p: Request, q: Request, h: Header) {
    forall n :: n in VaryFields(x, h) ==> Values(q.header, n) == Values(p.header, n)
  }

  lemma AgreeingMatch(cfg: Config, p: Request, q: Request, h: Header)
    ensures Matches(VaryValues(cfg.syntax, p, h), q) <==> FirstsAgree(cfg.syntax, p, q, h)
  {
  }

  /** A fresh answer reaches a request for the same thing if and only if the first values
      agree. */
  lemma FirstsDecide(cfg: Config, p: Request, q: Request, resp: Response, received: nat)
    requires CacheableRequest(cfg, p) && Kept(cfg, resp, received)
    requires received < FreshUntil(cfg, resp.header, received, OriginTime(cfg.syntax, resp.header, received))
    requires CacheableRequest(cfg, q) && !MustRevalidate(cfg, q) && Material(q) == Material(p)
    ensures (exists s: State, t: nat :: Reuses(cfg, s, t, p, resp, q)) <==> FirstsAgree(cfg.syntax, p, q, resp.header)
  {
    AgreeingMatch(cfg, p, q, resp.header);
    if FirstsAgree(cfg.syntax, p, q, resp.header) {
      var s := ServeLater(cfg, p, q, resp, received, 0);
      assert Reuses(cfg, s, 1, p, resp, q);
    }
    forall s: State, t: nat | Reuses(cfg, s, t, p, resp, q) ensures FirstsAgree(cfg.syntax, p, q, resp.header) {
      AnswersOnlyWhatTheOriginSaid(cfg, s, t);
    }
  }

  ghost predicate WrongVariant(cfg: Config, s: State, t: nat, p: Request, resp: Response, q: Request) {
    Reuses(cfg, s, t, p, resp, q) && !SameVariant(cfg.syntax, p, q, resp.header)
  }

  /** One representation is served for another if and only if some varying field differs
      and none differs in its first value. */
  lemma WrongVariantExactly(cfg: Config, p: Request, q: Request, resp: Response, received: nat)
    requires CacheableRequest(cfg, p) && Kept(cfg, resp, received)
    requires received < FreshUntil(cfg, resp.header, received, OriginTime(cfg.syntax, resp.header, received))
    requires CacheableRequest(cfg, q) && !MustRevalidate(cfg, q) && Material(q) == Material(p)
    ensures (exists s: State, t: nat :: WrongVariant(cfg, s, t, p, resp, q)) <==>
              FirstsAgree(cfg.syntax, p, q, resp.header) && exists n :: n in VaryFields(cfg.syntax, resp.header) && Values(q.header, n) != Values(p.header, n)
  {
    FirstsDecide(cfg, p, q, resp, received);
    if s: State, t: nat :| Reuses(cfg, s, t, p, resp, q) && !SameVariant(cfg.syntax, p, q, resp.header) {
      assert WrongVariant(cfg, s, t, p, resp, q);
    }
  }

  /** At most one line, and that one not empty, so the first value is all there is. */
  predicate OneLine(h: Header, name: string) { |Values(h, name)| <= 1 && Values(h, name) != [""] }

  /** On every run, an answer from the cache is of the variant asked for where both
      requests put each varying field on one line. */
  lemma OneLineIsEnough(cfg: Config, s: State, t: nat)
    requires Reachable(cfg, s) && Served(s, t)
    ensures var q, e := s.flights[t].req, s.flights[t].answer.entry;
      && Within(s.log, e.history)
      && var x := s.log[e.history[0]];
         (forall n :: n in VaryFields(cfg.syntax, x.resp.header) ==> OneLine(x.req.header, n) && OneLine(q.header, n)) ==>
           SameVariant(cfg.syntax, x.req, q, x.resp.header)
  {
    AnswersOnlyWhatTheOriginSaid(cfg, s, t);
    var q, x := s.flights[t].req, s.log[s.flights[t].answer.entry.history[0]];
    forall n | n in VaryFields(cfg.syntax, x.resp.header) && OneLine(x.req.header, n) && OneLine(q.header, n)
      ensures Values(q.header, n) == Values(x.req.header, n)
    {
      assert Get(q.header, n) == Get(x.req.header, n);
    }
  }

  /** A GET that names two languages, a line each. */
  function Asking(url: Url, second: string): Request { Request("GET", url, map["Accept-Language" := ["en", second]]) }

  lemma AskingIsCacheable(cfg: Config, url: Url, second: string)
    ensures CacheableRequest(cfg, Asking(url, second)) && !MustRevalidate(cfg, Asking(url, second))
    ensures Material(Asking(url, second)) == "GET" + [NUL] + url
  {
    var h := Asking(url, second).header;
    assert "Accept-Language"[1] == 'c' && "Cache-Control"[0] == 'C' && "Authorization"[1] == 'u';
    forall name | name in CONDITIONALS ensures name !in h {
      assert name[0] != 'A';
    }
  }

  /** What was said in answer to English and French is served for English and German. */
  lemma GermanGetsFrench(cfg: Config, url: Url, resp: Response, received: nat)
    requires Kept(cfg, resp, received) && VaryFields(cfg.syntax, resp.header) == ["Accept-Language"]
    requires received < FreshUntil(cfg, resp.header, received, OriginTime(cfg.syntax, resp.header, received))
    ensures exists s: State, t: nat :: WrongVariant(cfg, s, t, Asking(url, "fr"), resp, Asking(url, "de"))
  {
    var p, q := Asking(url, "fr"), Asking(url, "de");
    AskingIsCacheable(cfg, url, "fr");
    AskingIsCacheable(cfg, url, "de");
    assert Values(p.header, "Accept-Language")[1] != Values(q.header, "Accept-Language")[1];
    assert "Accept-Language" in VaryFields(cfg.syntax, resp.header);
    WrongVariantExactly(cfg, p, q, resp, received);
  }
}
