/** Any number of concurrent round trips through the caching transport, over one store
    and one monotone clock, and what the store may hold at every point of every run. */
module HttpCacheRuns {
  import opened Prelude
  import opened HttpCache

  /** One request on the wire for `req`, with the validators of `sent`, and its answer. */
  datatype Exchange = Exchange(req: Request, sent: Request, resp: Response)

  datatype Answer =
    | Hit(entry: Entry, at: int)              // served without asking the origin
    | Revalidated(entry: Entry, at: int)      // served after the origin's 304
    | Passed(exchange: nat)                   // the origin's own response
    | Failed

  datatype Flight =
    | Passing(req: Request)                                          // uncacheable
    | Looking(req: Request)                                          // before the store is read
    | Held(req: Request, found: Option<Entry>)                       // before the clock is read
    | Sent(req: Request, sent: Request, held: Option<Entry>)         // held: revalidating it
    | Received(req: Request, held: Option<Entry>, exchange: nat)     // before the clock is read again
    | Writing(req: Request, entry: Entry, answer: Answer)            // before the store is written
    | Done(req: Request, answer: Answer)

  datatype State = State(now: int, store: map<string, Entry>, flights: map<nat, Flight>, log: seq<Exchange>)

  datatype Move =
    | Arrive(req: Request)
    | Look(readable: bool)
    | Decide
    | Respond(resp: Response)
    | WireFails
    | Judge
    | Write(landed: bool)

  datatype Action = Tick(elapsed: nat) | Evict(key: string) | Act(t: nat, move: Move)

  // ------------------------------------------------------------------- the steps

  function Init(now: int): State { State(now, map[], map[], []) }

  predicate Enabled(s: State, t: nat, m: Move) {
    if m.Arrive? then t !in s.flights
    else t in s.flights && match m
      case Arrive(_) => true
      case Look(_) => s.flights[t].Looking?
      case Decide => s.flights[t].Held?
      case Respond(_) => s.flights[t].Sent? || s.flights[t].Passing?
      case WireFails => s.flights[t].Sent? || s.flights[t].Passing?
      case Judge => s.flights[t].Received?
      case Write(_) => s.flights[t].Writing?
  }

  function To(s: State, t: nat, f: Flight): State { s.(flights := s.flights[t := f]) }

  /** `lookup` */
  function Found(store: map<string, Entry>, req: Request): Option<Entry> {
    var k := Material(req);
    if k in store && Matches(store[k].vary, req) then Some(store[k]) else None
  }

  /** From the clock read to the wire, or to a hit. */
  function Decided(cfg: Config, now: int, req: Request, found: Option<Entry>): Flight {
    if found.None? then Sent(req, req, None)
    else if !MustRevalidate(cfg, req) && Fresh(found.value, now) then Done(req, Hit(found.value, now))
    else if HasValidator(found.value.header) then Sent(req, Conditional(req, found.value.header), found)
    else Sent(req, req, None)
  }

  /** Worth storing: it may be, it says how long it is good for or how to ask, it fits. */
  predicate Kept(cfg: Config, resp: Response, now: int) {
    && Storable(cfg, resp)
    && (FreshUntil(cfg, resp.header, now, OriginTime(cfg.syntax, resp.header, now)) != 0 || HasValidator(resp.header))
    && cfg.fits(resp.body)
  }

  /** `revalidated` and `maybeStore`, up to the store write. */
  function Judged(cfg: Config, now: int, req: Request, held: Option<Entry>, resp: Response, i: nat): Flight {
    if held.Some? && resp.status == 304 then
      var e := Refreshed(cfg, held.value, resp.header, now, i);
      Writing(req, e, Revalidated(e, now))
    else if Kept(cfg, resp, now) then Writing(req, NewEntry(cfg, req, resp, now, i), Passed(i))
    else Done(req, Passed(i))
  }

  function Move1(cfg: Config, s: State, t: nat, m: Move): State
    requires Enabled(s, t, m)
  {
    match m
    case Arrive(req) => To(s, t, if CacheableRequest(cfg, req) then Looking(req) else Passing(req))
    case Look(readable) =>
      var req := s.flights[t].req;
      To(s, t, Held(req, if readable then Found(s.store, req) else None))
    case Decide => To(s, t, Decided(cfg, s.now, s.flights[t].req, s.flights[t].found))
    case Respond(resp) =>
      var f := s.flights[t];
      var sent := if f.Sent? then f.sent else f.req;
      To(s.(log := s.log + [Exchange(f.req, sent, resp)]), t,
         if f.Sent? then Received(f.req, f.held, |s.log|) else Done(f.req, Passed(|s.log|)))
    case WireFails => To(s, t, Done(s.flights[t].req, Failed))
    case Judge =>
      var f := s.flights[t];
      if f.exchange < |s.log| then To(s, t, Judged(cfg, s.now, f.req, f.held, s.log[f.exchange].resp, f.exchange)) else s
    case Write(landed) =>
      var f := s.flights[t];
      To(if landed then s.(store := s.store[Material(f.req) := f.entry]) else s, t, Done(f.req, f.answer))
  }

  /** One step of a run; an action that is not enabled changes nothing. */
  function Next(cfg: Config, s: State, a: Action): State {
    match a
    case Tick(n) => s.(now := s.now + n)
    case Evict(k) => s.(store := s.store - {k})
    case Act(t, m) => if Enabled(s, t, m) then Move1(cfg, s, t, m) else s
  }

  function Run(cfg: Config, s: State, actions: seq<Action>): State {
    if actions == [] then s else Next(cfg, Run(cfg, s, actions[..|actions| - 1]), actions[|actions| - 1])
  }

  // --------------------------------------------------------------- the invariant

  predicate Within(log: seq<Exchange>, history: seq<nat>) {
    history != [] && forall j :: 0 <= j < |history| ==> history[j] < |log|
  }

  /** The header an entry built from these exchanges has: the first response's, with
      each 304 folded in. */
  function Headers(log: seq<Exchange>, history: seq<nat>): Header
    requires Within(log, history)
  {
    var n := |history| - 1;
    if n == 0 then StorableHeader(log[history[0]].resp.header)
    else Merge(Headers(log, history[..n]), log[history[n]].resp.header)
  }

  /** Every exchange was for this key and variant, and every one after the first was a
      304 that answered the validators of the entry as it then stood. */
  ghost predicate Confirmed(log: seq<Exchange>, history: seq<nat>, k: string, vary: map<string, string>)
    requires Within(log, history)
  {
    var n := |history| - 1;
    var x := log[history[n]];
    && Material(x.req) == k && Matches(vary, x.req)
    && (n > 0 ==>
      && Confirmed(log, history[..n], k, vary)
      && Confirms(x, Headers(log, history[..n])))
  }

  predicate Confirms(x: Exchange, stored: Header) {
    x.resp.status == 304 && HasValidator(stored) && x.sent == Conditional(x.req, stored)
  }

  /** An entry under a key says only what the origin said to requests with that key:
      status, body and variant from one full storable response, the header as its 304s
      left it, and freshness and date those of its own header and last receipt. */
  ghost predicate EntryOk(cfg: Config, log: seq<Exchange>, now: int, k: string, e: Entry) {
    && Within(log, e.history) && Confirmed(log, e.history, k, e.vary)
    && FromSource(cfg, log[e.history[0]], e)
    && e.header == Headers(log, e.history)
    && 0 <= e.received <= now
    && e.originTime == OriginTime(cfg.syntax, log[e.history[|e.history| - 1]].resp.header, e.received)
    && e.freshUntil == FreshUntil(cfg, e.header, e.received, e.originTime)
  }

  ghost predicate FromSource(cfg: Config, x: Exchange, e: Entry) {
    && CacheableRequest(cfg, x.req) && Storable(cfg, x.resp)
    && e.status == x.resp.status && e.body == x.resp.body
    && e.vary == VaryValues(cfg.syntax, x.req, x.resp.header)
  }

  /** An entry a request may be answered with. */
  ghost predicate Usable(cfg: Config, log: seq<Exchange>, now: int, req: Request, e: Entry) {
    CacheableRequest(cfg, req) && EntryOk(cfg, log, now, Material(req), e) && Matches(e.vary, req)
  }

  ghost predicate AnswerOk(cfg: Config, log: seq<Exchange>, now: int, req: Request, a: Answer) {
    match a
    case Hit(e, at) =>
      e.received <= at <= now && Usable(cfg, log, now, req, e) && Fresh(e, at) && !MustRevalidate(cfg, req)
    case Revalidated(e, at) =>
      && e.received == at && Usable(cfg, log, now, req, e)
      && |e.history| > 1 && log[e.history[|e.history| - 1]].resp.status == 304
      && log[e.history[|e.history| - 1]].req == req
    case Passed(i) => i < |log| && log[i].req == req
    case Failed => true
  }

  ghost predicate FlightOk(cfg: Config, log: seq<Exchange>, now: int, f: Flight) {
    match f
    case Passing(req) => !CacheableRequest(cfg, req)
    case Looking(req) => CacheableRequest(cfg, req)
    case Held(req, found) => CacheableRequest(cfg, req) && (found.Some? ==> Usable(cfg, log, now, req, found.value))
    case Sent(req, sent, held) =>
      && CacheableRequest(cfg, req)
      && (held.Some? ==>
        && Usable(cfg, log, now, req, held.value)
        && HasValidator(held.value.header) && sent == Conditional(req, held.value.header))
    case Received(req, held, i) =>
      && CacheableRequest(cfg, req) && i < |log| && log[i].req == req
      && (held.Some? ==>
        && Usable(cfg, log, now, req, held.value)
        && HasValidator(held.value.header) && log[i].sent == Conditional(req, held.value.header))
    case Writing(req, e, a) =>
      EntryOk(cfg, log, now, Material(req), e) && AnswerOk(cfg, log, now, req, a)
    case Done(req, a) => AnswerOk(cfg, log, now, req, a)
  }

  ghost predicate StoreInv(cfg: Config, s: State, k: string) {
    k in s.store ==> EntryOk(cfg, s.log, s.now, k, s.store[k])
  }

  ghost predicate FlightInv(cfg: Config, s: State, t: nat) {
    t in s.flights ==> FlightOk(cfg, s.log, s.now, s.flights[t])
  }

  ghost predicate Inv(cfg: Config, s: State) {
    && s.now >= 0
    && (forall k :: StoreInv(cfg, s, k))
    && (forall t :: FlightInv(cfg, s, t))
  }

  // ------------------------------------------------------- what later steps keep

  predicate Extends(log: seq<Exchange>, more: seq<Exchange>) { |log| <= |more| && log == more[..|log|] }

  lemma HistoryStays(log: seq<Exchange>, more: seq<Exchange>, history: seq<nat>, k: string, vary: map<string, string>)
    requires Within(log, history) && Extends(log, more)
    ensures Within(more, history) && (forall j :: 0 <= j < |history| ==> more[history[j]] == log[history[j]])
    ensures Headers(log, history) == Headers(more, history)
    ensures Confirmed(log, history, k, vary) ==> Confirmed(more, history, k, vary)
  {
    if |history| > 1 {
      HistoryStays(log, more, history[..|history| - 1], k, vary);
    }
  }

  lemma EntryStays(cfg: Config, log: seq<Exchange>, more: seq<Exchange>, now: int, later: int, k: string, e: Entry)
    requires EntryOk(cfg, log, now, k, e) && Extends(log, more) && now <= later
    ensures EntryOk(cfg, more, later, k, e)
  {
    HistoryStays(log, more, e.history, k, e.vary);
  }

  lemma AnswerStays(cfg: Config, log: seq<Exchange>, more: seq<Exchange>, now: int, later: int, req: Request, a: Answer)
    requires AnswerOk(cfg, log, now, req, a) && Extends(log, more) && now <= later
    ensures AnswerOk(cfg, more, later, req, a)
  {
    if a.Hit? || a.Revalidated? {
      EntryStays(cfg, log, more, now, later, Material(req), a.entry);
      HistoryStays(log, more, a.entry.history, Material(req), a.entry.vary);
    }
  }

  lemma FlightStays(cfg: Config, log: seq<Exchange>, more: seq<Exchange>, now: int, later: int, f: Flight)
    requires FlightOk(cfg, log, now, f) && Extends(log, more) && now <= later
    ensures FlightOk(cfg, more, later, f)
  {
    match f
    case Held(req, Some(e)) => EntryStays(cfg, log, more, now, later, Material(req), e);
    case Sent(req, _, Some(e)) => EntryStays(cfg, log, more, now, later, Material(req), e);
    case Received(req, Some(e), _) => EntryStays(cfg, log, more, now, later, Material(req), e);
    case Writing(req, e, a) =>
      EntryStays(cfg, log, more, now, later, Material(req), e);
      AnswerStays(cfg, log, more, now, later, req, a);
    case Done(req, a) => AnswerStays(cfg, log, more, now, later, req, a);
    case _ =>
  }

  // ------------------------------------------------------------- what steps build

  /** A response just received makes an entry that says what it said. */
  lemma NewEntryIsOk(cfg: Config, log: seq<Exchange>, now: int, i: nat)
    requires now >= 0 && i < |log| && CacheableRequest(cfg, log[i].req) && Storable(cfg, log[i].resp)
    ensures Matches(VaryValues(cfg.syntax, log[i].req, log[i].resp.header), log[i].req)
    ensures EntryOk(cfg, log, now, Material(log[i].req), NewEntry(cfg, log[i].req, log[i].resp, now, i))
  {
    var x := log[i];
    StoringKeepsFreshness(cfg, x.resp.header, now, OriginTime(cfg.syntax, x.resp.header, now));
  }

  /** A 304 to the same key refreshes an entry without changing what it answers. */
  lemma RefreshedIsOk(cfg: Config, log: seq<Exchange>, now: int, k: string, e: Entry, i: nat)
    requires EntryOk(cfg, log, now, k, e) && i < |log| && Confirms(log[i], e.header)
    requires Material(log[i].req) == k && Matches(e.vary, log[i].req)
    ensures EntryOk(cfg, log, now, k, Refreshed(cfg, e, log[i].resp.header, now, i))
  {
    HistoryGrows(log, e.history, i, k, e.vary);
  }

  lemma HistoryGrows(log: seq<Exchange>, history: seq<nat>, i: nat, k: string, vary: map<string, string>)
    requires Within(log, history) && i < |log| && Confirmed(log, history, k, vary) && Confirms(log[i], Headers(log, history))
    requires Material(log[i].req) == k && Matches(vary, log[i].req)
    ensures var more := history + [i];
      && Within(log, more) && Confirmed(log, more, k, vary)
      && more[0] == history[0] && more[|more| - 1] == i
      && Headers(log, more) == Merge(Headers(log, history), log[i].resp.header)
  {
    assert (history + [i])[..|history|] == history;
  }

  lemma JudgedIsOk(cfg: Config, log: seq<Exchange>, now: int, f: Flight)
    requires now >= 0 && f.Received? && FlightOk(cfg, log, now, f)
    ensures FlightOk(cfg, log, now, Judged(cfg, now, f.req, f.held, log[f.exchange].resp, f.exchange))
  {
    var i, resp := f.exchange, log[f.exchange].resp;
    if f.held.Some? && resp.status == 304 {
      RefreshedIsOk(cfg, log, now, Material(f.req), f.held.value, i);
    } else if Storable(cfg, resp) {
      NewEntryIsOk(cfg, log, now, i);
    }
  }

  lemma DecidedIsOk(cfg: Config, log: seq<Exchange>, now: int, f: Flight)
    requires f.Held? && FlightOk(cfg, log, now, f)
    ensures FlightOk(cfg, log, now, Decided(cfg, now, f.req, f.found))
  {
    if f.found.Some? {
      ReceivedEarlier(cfg, log, now, Material(f.req), f.found.value);
    }
  }

  lemma ReceivedEarlier(cfg: Config, log: seq<Exchange>, now: int, k: string, e: Entry)
    requires EntryOk(cfg, log, now, k, e)
    ensures e.received <= now
  {
  }

  lemma FoundIsOk(cfg: Config, s: State, req: Request)
    requires CacheableRequest(cfg, req) && StoreInv(cfg, s, Material(req)) && Found(s.store, req).Some?
    ensures Usable(cfg, s.log, s.now, req, Found(s.store, req).value)
  {
  }

  lemma RespondKeeps(cfg: Config, s: State, t: nat, resp: Response)
    requires Enabled(s, t, Respond(resp)) && FlightInv(cfg, s, t)
    ensures FlightInv(cfg, Move1(cfg, s, t, Respond(resp)), t)
  {
    FlightStays(cfg, s.log, Move1(cfg, s, t, Respond(resp)).log, s.now, s.now, s.flights[t]);
  }

  // ------------------------------------------------------------ every step keeps it

  lemma MoveGrows(cfg: Config, s: State, t: nat, m: Move)
    requires Enabled(s, t, m)
    ensures var r := Move1(cfg, s, t, m);
      && r.now == s.now && Extends(s.log, r.log)
      && r.flights.Keys == s.flights.Keys + {t} && (forall u :: u in s.flights && u != t ==> r.flights[u] == s.flights[u])
  {
  }

  lemma MoverKeeps(cfg: Config, s: State, t: nat, m: Move)
    requires Enabled(s, t, m) && s.now >= 0 && FlightInv(cfg, s, t)
    requires t in s.flights ==> StoreInv(cfg, s, Material(s.flights[t].req))
    ensures FlightInv(cfg, Move1(cfg, s, t, m), t)
  {
    match m
    case Respond(resp) => RespondKeeps(cfg, s, t, resp);
    case Decide => DecidedIsOk(cfg, s.log, s.now, s.flights[t]);
    case Look(_) =>
      var req := s.flights[t].req;
      if Found(s.store, req).Some? {
        FoundIsOk(cfg, s, req);
      }
    case Judge => JudgedIsOk(cfg, s.log, s.now, s.flights[t]);
    case _ =>
  }

  /** Flights that did not move stay in order as the log and the clock go on. */
  lemma FlightsStay(cfg: Config, s: State, r: State)
    requires forall u: nat :: FlightInv(cfg, s, u)
    requires Extends(s.log, r.log) && s.now <= r.now
    ensures forall u: nat :: u in s.flights && u in r.flights && r.flights[u] == s.flights[u] ==> FlightInv(cfg, r, u)
  {
    forall u: nat | u in s.flights && u in r.flights && r.flights[u] == s.flights[u] ensures FlightInv(cfg, r, u) {
      assert FlightInv(cfg, s, u);
      FlightStays(cfg, s.log, r.log, s.now, r.now, s.flights[u]);
    }
  }

  lemma StoreStays(cfg: Config, s: State, r: State)
    requires forall k :: StoreInv(cfg, s, k)
    requires Extends(s.log, r.log) && s.now <= r.now
    ensures forall k :: k in s.store && k in r.store && r.store[k] == s.store[k] ==> StoreInv(cfg, r, k)
  {
    forall k | k in s.store && k in r.store && r.store[k] == s.store[k] ensures StoreInv(cfg, r, k) {
      assert StoreInv(cfg, s, k);
      EntryStays(cfg, s.log, r.log, s.now, r.now, k, s.store[k]);
    }
  }

  /** A move writes nothing but the entry its own flight holds, under its key. */
  lemma WrittenIsOk(cfg: Config, s: State, t: nat, m: Move, k: string)
    requires Enabled(s, t, m) && FlightInv(cfg, s, t)
    ensures var r := Move1(cfg, s, t, m); k in r.store && !(k in s.store && r.store[k] == s.store[k]) ==> StoreInv(cfg, r, k)
  {
  }

  lemma MoveKeeps(cfg: Config, s: State, t: nat, m: Move)
    requires Inv(cfg, s) && Enabled(s, t, m)
    ensures Inv(cfg, Move1(cfg, s, t, m))
  {
    var r := Move1(cfg, s, t, m);
    MoveGrows(cfg, s, t, m);
    assert FlightInv(cfg, s, t);
    assert t in s.flights ==> StoreInv(cfg, s, Material(s.flights[t].req));
    MoverKeeps(cfg, s, t, m);
    FlightsStay(cfg, s, r);
    StoreStays(cfg, s, r);
    forall k ensures StoreInv(cfg, r, k) { WrittenIsOk(cfg, s, t, m, k); }
  }

  lemma StepKeeps(cfg: Config, s: State, a: Action)
    requires Inv(cfg, s)
    ensures Inv(cfg, Next(cfg, s, a))
  {
    var r := Next(cfg, s, a);
    if a.Act? {
      if Enabled(s, a.t, a.move) { MoveKeeps(cfg, s, a.t, a.move); }
    } else {
      FlightsStay(cfg, s, r);
      StoreStays(cfg, s, r);
    }
  }

  lemma {:induction false} RunKeeps(cfg: Config, s: State, actions: seq<Action>)
    requires Inv(cfg, s)
    ensures Inv(cfg, Run(cfg, s, actions))
  {
    if actions != [] {
      RunKeeps(cfg, s, actions[..|actions| - 1]);
      StepKeeps(cfg, Run(cfg, s, actions[..|actions| - 1]), actions[|actions| - 1]);
    }
  }
}
