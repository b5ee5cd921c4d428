/** The transport over a store that keeps live pointers: entries and header maps are
    objects, a lookup reads the very object a write stored, and callers go on to change
    the header of any response they were given. */
module HttpCacheHeap {
  import opened Prelude
  import opened HttpCache
  import opened HttpCacheRuns
  import opened HttpCachePolicy
  import opened HttpCacheTerms

  class HeaderMap {
    var fields: Header

    constructor (fields: Header)
      ensures this.fields == fields
    {
      this.fields := fields;
    }

    method Clone() returns (c: HeaderMap)
      ensures fresh(c) && c.fields == fields
    {
      c := new HeaderMap(fields);
    }

    /** `storableHeader` */
    method Storable() returns (c: HeaderMap)
      ensures fresh(c) && c.fields == StorableHeader(fields)
    {
      c := Clone();
      for i := 0 to |HOP_BY_HOP|
        invariant c.fields == map n | n in fields && n !in HOP_BY_HOP[..i] :: fields[n]
      {
        c.fields := c.fields - {HOP_BY_HOP[i]};
      }
    }
  }

  class HttpResponse {
    const status: int
    const header: HeaderMap
    const body: Body

    constructor (status: int, header: HeaderMap, body: Body)
      ensures this.status == status && this.header == header && this.body == body
    {
      this.status, this.header, this.body := status, header, body;
    }

    function Value(): Response
      reads header
    {
      Response(status, header.fields, body)
    }
  }

  /** The fields of a 304 taken over so far. */
  function Adopted(fields: Header, left: set<string>): Header { fields - left - {"Content-Length"} }

  lemma AdoptOne(start: Header, fields: Header, left: set<string>, name: string)
    requires name in left && name in fields
    ensures start + Adopted(fields, left - {name}) ==
      if name != "Content-Length" then (start + Adopted(fields, left))[name := fields[name]] else start + Adopted(fields, left)
  {
  }

  class CachedResponse {
    const status: int
    const header: HeaderMap
    const body: Body
    const vary: map<string, string>
    var originTime: int
    var freshUntil: int
    ghost var history: seq<nat>
    ghost var received: int

    constructor (status: int, header: HeaderMap, body: Body, vary: map<string, string>,
                 originTime: int, freshUntil: int, ghost history: seq<nat>, ghost received: int)
      ensures this.header == header
      ensures Value() == Entry(status, header.fields, body, vary, originTime, freshUntil, history, received)
    {
      this.status, this.header, this.body, this.vary := status, header, body, vary;
      this.originTime, this.freshUntil := originTime, freshUntil;
      this.history, this.received := history, received;
    }

    ghost function Value(): Entry
      reads this, header
    {
      Entry(status, header.fields, body, vary, originTime, freshUntil, history, received)
    }

    method Clone() returns (c: CachedResponse)
      ensures fresh(c) && fresh(c.header) && c.Value() == Value()
    {
      var h := header.Clone();
      c := new CachedResponse(status, h, body, vary, originTime, freshUntil, history, received);
    }

    /** `refresh`: fold in the fields a 304 carried, one by one. */
    method Refresh(h: HeaderMap, origin: int)
      requires h != header
      modifies this`originTime, header
      ensures header.fields == Merge(old(header.fields), h.fields) && originTime == origin
    {
      var stored := h.Storable();
      var fields := stored.fields;
      ghost var start := header.fields;
      var left := fields.Keys;
      assert start + Adopted(fields, left) == start;
      while left != {}
        invariant left <= fields.Keys
        invariant header.fields == start + Adopted(fields, left)
      {
        var name :| name in left;
        AdoptOne(start, fields, left, name);
        if name != "Content-Length" {
          header.fields := header.fields[name := fields[name]];
        }
        left := left - {name};
      }
      originTime := origin;
    }

    /** The folding in of a 304, and freshness recomputed from the merged header. */
    method Adopt(cfg: Config, h: HeaderMap, received: int, ghost at: nat)
      requires h != header
      modifies this, header
      ensures Value() == Refreshed(cfg, old(Value()), h.fields, received, at)
    {
      Refresh(h, OriginTime(cfg.syntax, h.fields, received));
      freshUntil := FreshUntil(cfg, header.fields, received, originTime);
      history, this.received := history + [at], received;
    }

    /** `toResponse` */
    method ToResponse(x: Syntax, now: int) returns (r: HttpResponse)
      ensures fresh(r) && fresh(r.header) && r.Value() == AsResponse(x, Value(), now)
      ensures r.status == status && r.body == body && r.header.fields - {"Age"} == header.fields - {"Age"}
      ensures Values(r.header.fields, "Age") == [x.show(Age(Value(), now))]
    {
      var h := header.Clone();
      var d := now - originTime;
      var age := (if d < 0 then 0 else if d > TWO63 - 1 then TWO63 - 1 else d) / SECOND;
      h.fields := h.fields["Age" := [x.show(age)]];
      r := new HttpResponse(status, h, body);
    }
  }

  /** The response an entry is served as: its own, with the age it has reached. */
  function AsResponse(x: Syntax, e: Entry, now: int): Response {
    Response(e.status, e.header["Age" := [x.show(Age(e, now))]], e.body)
  }

  /** The entry for a response worth storing, with its own header map. */
  method Captured(cfg: Config, req: Request, resp: HttpResponse, received: int, ghost at: nat) returns (e: CachedResponse?)
    ensures e == null <==> !Kept(cfg, resp.Value(), received)
    ensures e != null ==> fresh(e) && fresh(e.header) && e.Value() == NewEntry(cfg, req, resp.Value(), received, at)
  {
    var fields := resp.header.fields;
    if !Storable(cfg, resp.Value()) {
      return null;
    }
    var origin := OriginTime(cfg.syntax, fields, received);
    var until := FreshUntil(cfg, fields, received, origin);
    if (until == 0 && !HasValidator(fields)) || !cfg.fits(resp.body) {
      return null;
    }
    var h := resp.header.Storable();
    var vary := ReadVaryValues(cfg.syntax, req, fields);
    e := new CachedResponse(resp.status, h, resp.body, vary, origin, until, [at], received);
  }

  /** One round trip by value, with no other in between: how it ends, given the wire's
      answer as exchange `at`. */
  function Trip(cfg: Config, store: map<string, Entry>, req: Request, readable: bool, now: int,
                wire: Option<Response>, received: int, at: nat): (f: Flight)
    ensures f.Done? || f.Writing?
  {
    if !CacheableRequest(cfg, req) then Done(req, if wire.Some? then Passed(at) else Failed)
    else
      match Decided(cfg, now, req, if readable then Found(store, req) else None)
      case Sent(_, _, held) =>
        if wire.Some? then Judged(cfg, received, req, held, wire.value, at) else Done(req, Failed)
      case f => f
  }

  /** What can happen around the transport: a round trip, a caller writing to a header
      it was given, the store dropping an entry. */
  datatype Event =
    | Call(req: Request, readable: bool, now: int, wire: Option<Response>, received: int, at: nat, landed: bool)
    | CallerWrite(which: nat, name: string, values: seq<string>)
    | Drop(key: string)

  class Transport {
    const cfg: Config
    var store: map<string, CachedResponse>
    ghost var kept: set<CachedResponse>   // every entry ever handed to the store
    ghost var lent: set<HeaderMap>        // every header ever handed to a caller

    constructor (cfg: Config)
      ensures this.cfg == cfg && store == map[] && kept == {} && lent == {} && Valid()
    {
      this.cfg, store, kept, lent := cfg, map[], {}, {};
    }

    ghost predicate Valid()
      reads this
    {
      && (forall k :: k in store ==> store[k] in kept)
      && (forall e :: e in kept ==> e.header !in lent)
    }

    /** The store by value. */
    ghost function Store(): map<string, Entry>
      reads this, store.Values, set e | e in store.Values :: e.header
    {
      map k | k in store :: store[k].Value()
    }

    /** No entry the store was ever given has changed. */
    twostate predicate Frozen()
      reads this, kept, set e | e in kept :: e.header
    {
      old(kept) <= kept && forall e :: e in old(kept) ==> Unchanged(e)
    }

    twostate predicate Unchanged(e: CachedResponse)
      reads e, e.header
    {
      e.Value() == old(e.Value())
    }

    /** An entry of the transport's own: no one else's, and no caller's. */
    ghost predicate Private(e: CachedResponse)
      reads this
    {
      e !in kept && e.header !in lent && forall k :: k in kept ==> k.header != e.header
    }

    /** `lookup`: whatever it finds, it hands out a copy. */
    method Lookup(req: Request, readable: bool) returns (entry: CachedResponse?)
      requires Valid()
      ensures entry != null ==> fresh(entry) && fresh(entry.header)
      ensures var found := if readable then Found(Store(), req) else None;
        if entry == null then found.None? else found == Some(entry.Value())
    {
      var k := Material(req);
      if !readable || k !in store {
        return null;
      }
      var ok := CheckVary(store[k].vary, req);
      if !ok {
        return null;
      }
      entry := store[k].Clone();
    }

    /** The write to the store, which may fail. */
    method Set(k: string, e: CachedResponse, landed: bool)
      requires Valid() && Private(e)
      modifies this`store, this`kept
      ensures Valid() && kept == old(kept) + {e}
      ensures store == if landed then old(store)[k := e] else old(store)
    {
      kept := kept + {e};
      if landed {
        store := store[k := e];
      }
    }

    /** `revalidated`: the caller's response and the stored entry share nothing. */
    method Revalidated(req: Request, h: HeaderMap, received: int, ghost at: nat, entry: CachedResponse, landed: bool)
      returns (r: HttpResponse)
      requires Valid() && Private(entry) && h != entry.header
      modifies this`store, this`kept, this`lent, entry, entry.header
      ensures Valid() && Frozen() && kept == old(kept) + {entry} && lent == old(lent) + {r.header}
      ensures entry.Value() == Refreshed(cfg, old(entry.Value()), old(h.fields), received, at)
      ensures store == if landed then old(store)[Material(req) := entry] else old(store)
      ensures fresh(r) && fresh(r.header) && r.Value() == AsResponse(cfg.syntax, entry.Value(), received)
    {
      entry.Adopt(cfg, h, received, at);
      Set(Material(req), entry, landed);
      r := entry.ToResponse(cfg.syntax, received);
      lent := lent + {r.header};
    }

    /** `maybeStore`: the entry gets its own header map; the response is the
        caller's, untouched. */
    method MaybeStore(req: Request, resp: HttpResponse, received: int, ghost at: nat, landed: bool)
      returns (e: CachedResponse?)
      requires Valid() && (forall e :: e in kept ==> e.header != resp.header)
      modifies this`store, this`kept, this`lent
      ensures Valid() && Frozen() && lent == old(lent) + {resp.header}
      ensures e == null <==> !Kept(cfg, resp.Value(), received)
      ensures var ds, h := Listed(cfg.syntax, resp.header.fields), resp.header.fields;
        e != null <==>
          && (resp.status == 200 || resp.status == 203 || resp.status == 204 || resp.status == 300
              || resp.status == 301 || resp.status == 308 || resp.status == 404 || resp.status == 410)
          && NoStore !in ds && Directive.Private !in ds && "*" !in Flat(cfg.syntax.names, Values(h, "Vary")) && Values(h, "Set-Cookie") == []
          && (FreshUntil(cfg, h, received, OriginTime(cfg.syntax, h, received)) != 0 || Get(h, "Etag") != "" || Get(h, "Last-Modified") != "")
          && cfg.fits(resp.body)
      ensures e == null ==> kept == old(kept) && store == old(store)
      ensures e != null ==>
        && fresh(e) && fresh(e.header) && e.Value() == NewEntry(cfg, req, resp.Value(), received, at)
        && kept == old(kept) + {e} && store == if landed then old(store)[Material(req) := e] else old(store)
    {
      KeptMeans(cfg, resp.Value(), received);
      lent := lent + {resp.header};
      e := Captured(cfg, req, resp, received, at);
      if e != null {
        Set(Material(req), e, landed);
      }
    }

    /** The store may drop what it holds. */
    method Evict(k: string)
      requires Valid()
      modifies this`store
      ensures Valid() && Frozen() && store == old(store) - {k} && kept == old(kept) && lent == old(lent)
    {
      store := store - {k};
    }

    /** A caller may write to any header it was ever given. */
    method CallerSets(h: HeaderMap, name: string, values: seq<string>)
      requires Valid() && h in lent
      modifies h
      ensures Valid() && Frozen() && h.fields == old(h.fields)[name := values]
    {
      h.fields := h.fields[name := values];
    }

    /** Since entries are frozen, the store means by value what it holds by pointer. */
    twostate lemma StoreByValue()
      requires old(Valid()) && Valid() && Frozen()
      ensures forall k :: k in old(store) && k in store && store[k] == old(store[k]) ==> Store()[k] == old(Store())[k]
    {
    }

    twostate lemma StoredByValue()
      requires old(Valid()) && Valid() && Frozen()
      ensures forall f: Flight, written: CachedResponse?, k, landed :: Stored(f, old(store), old(kept), written, k, landed) ==>
                Store() == if f.Writing? && landed then old(Store())[k := f.entry] else old(Store())
    {
      StoreByValue();
    }

    /** What a caller gets for an answer. */
    ghost predicate Given(a: Answer, r: HttpResponse?, wire: HttpResponse?)
      reads r, if r != null then {r.header} else {}
    {
      match a
      case Hit(e, at) => r != null && r.Value() == AsResponse(cfg.syntax, e, at)
      case Revalidated(e, at) => r != null && r.Value() == AsResponse(cfg.syntax, e, at)
      case Passed(_) => r != null && r == wire
      case Failed => r == null
    }

    /** `RoundTrip` */
    method RoundTrip(req: Request, readable: bool, now: int, wire: HttpResponse?, received: int, ghost at: nat, landed: bool)
      returns (r: HttpResponse?, written: CachedResponse?)
      requires Valid() && (wire != null ==> forall e :: e in kept ==> e.header != wire.header)
      modifies this`store, this`kept, this`lent
      ensures Valid() && Frozen() && lent == old(lent) + if r != null then {r.header} else {}
      ensures r != null && r != wire ==> fresh(r) && fresh(r.header)
      ensures written != null ==> fresh(written) && fresh(written.header)
      ensures var f := Trip(cfg, old(Store()), req, readable, now, if wire != null then Some(old(wire.Value())) else None, received, at);
        Given(f.answer, r, wire) && Stored(f, old(store), old(kept), written, Material(req), landed)
    {
      written := null;
      if !CacheableRequest(cfg, req) {
        r := Pass(wire);
        return;
      }
      var entry;
      entry, r := Consult(req, readable, now);
      if r != null {
        lent := lent + {r.header};
      } else {
        r, written := Forward(req, entry, wire, received, at, landed);
      }
    }

    /** The half of a round trip that goes to the wire, which may fail. */
    method Forward(req: Request, entry: CachedResponse?, wire: HttpResponse?, received: int, ghost at: nat, landed: bool)
      returns (r: HttpResponse?, written: CachedResponse?)
      requires Valid() && (wire != null ==> forall e :: e in kept ==> e.header != wire.header)
      requires entry != null ==> Private(entry) && (wire != null ==> entry.header != wire.header)
      modifies this`store, this`kept, this`lent, entry, if entry != null then {entry.header} else {}
      ensures Valid() && Frozen() && lent == old(lent) + if r != null then {r.header} else {}
      ensures r != null && r != wire ==> fresh(r) && fresh(r.header)
      ensures written != null && written != entry ==> fresh(written) && fresh(written.header)
      ensures var f := if wire != null then Judged(cfg, received, req, old(Checkable(entry)), old(wire.Value()), at) else Done(req, Failed);
        && (f.Done? || f.Writing?) && Given(f.answer, r, wire)
        && Stored(f, old(store), old(kept), written, Material(req), landed)
    {
      r, written := null, null;
      if wire != null {
        r, written := Settle(req, entry, wire, received, at, landed);
      }
    }

    /** By value the store changes exactly as the model by value says: entries frozen
        behind their pointers, and the one entry written. */
    method Serve(req: Request, readable: bool, now: int, wire: HttpResponse?, received: int, ghost at: nat, landed: bool)
      returns (r: HttpResponse?)
      requires Valid() && (wire != null ==> forall e :: e in kept ==> e.header != wire.header)
      modifies this`store, this`kept, this`lent
      ensures Valid() && Frozen()
      ensures var f := Trip(cfg, old(Store()), req, readable, now, if wire != null then Some(old(wire.Value())) else None, received, at);
        && Given(f.answer, r, wire)
        && Store() == if f.Writing? && landed then old(Store())[Material(req) := f.entry] else old(Store())
    {
      var written;
      r, written := RoundTrip(req, readable, now, wire, received, at, landed);
      StoredByValue();
    }

    /** The half of a round trip before the wire: an answer, or the entry to revalidate. */
    method Consult(req: Request, readable: bool, now: int) returns (entry: CachedResponse?, r: HttpResponse?)
      requires Valid()
      ensures entry != null ==> fresh(entry) && fresh(entry.header)
      ensures r != null ==> fresh(r) && fresh(r.header)
      ensures match Decided(cfg, now, req, if readable then Found(Store(), req) else None)
        case Done(_, a) => a.Hit? && r != null && r.Value() == AsResponse(cfg.syntax, a.entry, a.at)
        case Sent(_, _, held) => r == null && held == Checkable(entry)
        case _ => false
    {
      entry := Lookup(req, readable);
      r := null;
      if entry != null && !MustRevalidate(cfg, req) && now < entry.freshUntil {
        r := entry.ToResponse(cfg.syntax, now);
      }
    }

    ghost function Checkable(entry: CachedResponse?): Option<Entry>
      reads entry, if entry != null then {entry.header} else {}
    {
      if entry != null && HasValidator(entry.header.fields) then Some(entry.Value()) else None
    }

    ghost predicate Stored(f: Flight, before: map<string, CachedResponse>, keptBefore: set<CachedResponse>,
                           written: CachedResponse?, k: string, landed: bool)
      reads this, written, if written != null then {written.header} else {}
    {
      if f.Writing?
      then && written != null && written.Value() == f.entry && kept == keptBefore + {written}
           && store == (if landed then before[k := written] else before)
      else written == null && kept == keptBefore && store == before
    }

    /** The half of a round trip after the origin has answered. */
    method Settle(req: Request, entry: CachedResponse?, wire: HttpResponse, received: int, ghost at: nat, landed: bool)
      returns (r: HttpResponse, written: CachedResponse?)
      requires Valid() && (forall e :: e in kept ==> e.header != wire.header)
      requires entry != null ==> Private(entry) && entry.header != wire.header
      modifies this`store, this`kept, this`lent, entry, if entry != null then {entry.header} else {}
      ensures Valid() && Frozen() && lent == old(lent) + {r.header}
      ensures r != wire ==> fresh(r) && fresh(r.header)
      ensures written != null && written != entry ==> fresh(written) && fresh(written.header)
      ensures var f := Judged(cfg, received, req, old(Checkable(entry)), old(wire.Value()), at);
        && (f.Done? || f.Writing?) && Given(f.answer, r, wire)
        && Stored(f, old(store), old(kept), written, Material(req), landed)
    {
      if entry != null && HasValidator(entry.header.fields) && wire.status == 304 {
        r := Revalidated(req, wire.header, received, at, entry, landed);
        written := entry;
      } else {
        r := wire;
        written := MaybeStore(req, wire, received, at, landed);
      }
    }

    /** The base transport's own answer, handed on. */
    method Pass(wire: HttpResponse?) returns (r: HttpResponse?)
      requires Valid() && (wire != null ==> forall e :: e in kept ==> e.header != wire.header)
      modifies this`lent
      ensures Valid() && r == wire && lent == old(lent) + if r != null then {r.header} else {}
    {
      r := wire;
      if r != null {
        lent := lent + {r.header};
      }
    }

    /** One event, with `given` the headers callers hold. */
    method Happen(ev: Event, given: seq<HeaderMap>) returns (more: seq<HeaderMap>)
      requires Valid() && forall h :: h in given ==> h in lent
      modifies this`store, this`kept, this`lent, set h | h in given
      ensures Valid() && Frozen()
      ensures (more == given || (more != [] && more[..|more| - 1] == given && fresh(more[|more| - 1])))
      ensures forall h :: h in more ==> h in lent
    {
      more := given;
      match ev {
        case Drop(k) => Evict(k);
        case CallerWrite(i, name, values) =>
          if i < |given| {
            CallerSets(given[i], name, values);
          }
        case Call(req, readable, now, wire, received, at, landed) =>
          var w: HttpResponse? := null;
          if wire.Some? {
            var h := new HeaderMap(wire.value.header);
            w := new HttpResponse(wire.value.status, h, wire.value.body);
          }
          var r, written := RoundTrip(req, readable, now, w, received, at, landed);
          if r != null {
            more := given + [r.header];
          }
      }
    }

    /** Whatever happens from any point on, no entry the store has been given changes. */
    method Session(events: seq<Event>, start: seq<HeaderMap>) returns (given: seq<HeaderMap>)
      requires Valid() && forall h :: h in start ==> h in lent
      modifies this`store, this`kept, this`lent, set h | h in start
      ensures Valid() && Frozen()
      ensures forall h :: h in given ==> h in lent
    {
      given := start;
      for i := 0 to |events|
        invariant Valid() && Frozen() && forall h :: h in given ==> h in lent
        invariant forall h :: h in given ==> h in start || fresh(h)
      {
        given := Happen(events[i], given);
      }
    }
  }
}
