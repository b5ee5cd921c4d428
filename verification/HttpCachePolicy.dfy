/** The loops that read and write header fields, against what they compute. */
module HttpCachePolicy {
  import opened Prelude
  import opened HttpCache

  predicate Numeric(d: Directive, shared: bool) {
    if shared then d.SMaxAge? && d.seconds.Some? else d.MaxAge? && d.seconds.Some?
  }

  /** No numeric lifetime of this kind from position `i` on. */
  predicate NoneFrom(ds: seq<Directive>, i: nat, shared: bool) {
    forall j :: i <= j < |ds| ==> !Numeric(ds[j], shared)
  }

  function Kind(cc: CacheControl, shared: bool): Option<int> { if shared then cc.sMaxAge else cc.maxAge }

  /** What a header's directives come to: a flag is on if and only if some directive
      names it, in whatever field, and a lifetime is that of its last numeric one. */
  lemma {:induction false} DirectivesMean(ds: seq<Directive>, shared: bool, i: nat)
    ensures Fold(ds).noStore == (NoStore in ds) && Fold(ds).noCache == (NoCache in ds) && Fold(ds).private == (Private in ds)
    ensures NoneFrom(ds, 0, shared) ==> Kind(Fold(ds), shared) == None
    ensures i < |ds| && Numeric(ds[i], shared) && NoneFrom(ds, i + 1, shared) ==>
      Kind(Fold(ds), shared) == Some(Seconds(ds[i].seconds.value))
  {
    if ds != [] {
      var n := |ds| - 1;
      DirectivesMean(ds[..n], shared, i);
      assert ds == ds[..n] + [ds[n]];
    }
  }

  /** Fields are read one after another, and each whole. */
  lemma {:induction false} FlatMeans<T>(f: string -> seq<T>, p: seq<string>, q: seq<string>, field: string)
    ensures Flat(f, []) == [] && Flat(f, [field]) == f(field)
    ensures Flat(f, p + q) == Flat(f, p) + Flat(f, q)
    decreases |q|
  {
    assert [field][..0] == [];
    if q == [] {
      assert p + q == p;
    } else {
      assert (p + q)[..|p + q| - 1] == p + q[..|q| - 1];
      FlatMeans(f, p, q[..|q| - 1], field);
    }
  }

  lemma FoldOneMore(ds: seq<Directive>, d: Directive)
    ensures (ds + [d])[..|ds|] == ds && (ds + [d])[|ds|] == d
  {
  }

  /** `parseCacheControl` */
  method ParseCacheControl(x: Syntax, h: Header) returns (cc: CacheControl)
    ensures cc == Directives(x, h)
  {
    cc := CacheControl(None, None, false, false, false);
    var fields := Values(h, "Cache-Control");
    for i := 0 to |fields|
      invariant cc == Fold(Flat(x.directives, fields[..i]))
    {
      var ds := x.directives(fields[i]);
      ghost var earlier := Flat(x.directives, fields[..i]);
      cc := ReadField(cc, earlier, ds);
      assert fields[..i + 1][..i] == fields[..i];
    }
    assert fields[..|fields|] == fields;
  }

  method ReadField(start: CacheControl, ghost earlier: seq<Directive>, ds: seq<Directive>) returns (cc: CacheControl)
    requires start == Fold(earlier)
    ensures cc == Fold(earlier + ds)
  {
    cc := start;
    assert earlier + ds[..0] == earlier;
    for j := 0 to |ds|
      invariant cc == Fold(earlier + ds[..j])
    {
      assert earlier + ds[..j + 1] == earlier + ds[..j] + [ds[j]];
      FoldOneMore(earlier + ds[..j], ds[j]);
      match ds[j] {
        case NoStore => cc := cc.(noStore := true);
        case NoCache => cc := cc.(noCache := true);
        case Private => cc := cc.(private := true);
        case MaxAge(n) => if n.Some? { cc := cc.(maxAge := Some(Seconds(n.value))); }
        case SMaxAge(n) => if n.Some? { cc := cc.(sMaxAge := Some(Seconds(n.value))); }
        case Other =>
      }
    }
    assert ds[..|ds|] == ds;
  }

  /** A response is unkeyable if and only if some Vary field lists "*"; otherwise its
      fields are the non-empty names listed. */
  lemma VaryMeans(x: Syntax, h: Header, name: string)
    ensures var names := Flat(x.names, Values(h, "Vary"));
      if "*" in names then VaryFields(x, h) == ["*"]
      else name in VaryFields(x, h) <==> name in names && name != ""
  {
    NonEmptyMeans(Flat(x.names, Values(h, "Vary")), name);
  }

  lemma {:induction false} NonEmptyMeans(names: seq<string>, name: string)
    ensures name in NonEmpty(names) <==> name in names && name != ""
  {
    if names != [] {
      var n := |names| - 1;
      NonEmptyMeans(names[..n], name);
      assert names == names[..n] + [names[n]];
    }
  }

  lemma NonEmptyOneMore(names: seq<string>, name: string)
    ensures NonEmpty(names + [name]) == NonEmpty(names) + if name == "" then [] else [name]
  {
    assert (names + [name])[..|names|] == names;
  }

  lemma FlatHas<T>(f: string -> seq<T>, fields: seq<string>, i: nat, t: T)
    requires i < |fields| && t in f(fields[i])
    ensures t in Flat(f, fields)
  {
    var n := |fields| - 1;
    if i < n {
      FlatHas(f, fields[..n], i, t);
    }
  }

  /** `varyFields`: stops at the first "*". */
  method ReadVary(x: Syntax, h: Header) returns (names: seq<string>)
    ensures names == VaryFields(x, h)
  {
    names := [];
    var fields := Values(h, "Vary");
    for i := 0 to |fields|
      invariant names == NonEmpty(Flat(x.names, fields[..i])) && "*" !in Flat(x.names, fields[..i])
    {
      var pieces := x.names(fields[i]);
      ghost var earlier := Flat(x.names, fields[..i]);
      assert fields[..i + 1][..i] == fields[..i];
      var any;
      names, any := ReadNames(names, earlier, pieces);
      if any {
        FlatHas(x.names, fields, i, "*");
        return ["*"];
      }
    }
    assert fields[..|fields|] == fields;
  }

  method ReadNames(start: seq<string>, ghost earlier: seq<string>, pieces: seq<string>) returns (names: seq<string>, any: bool)
    requires start == NonEmpty(earlier)
    ensures any == ("*" in pieces) && (!any ==> names == NonEmpty(earlier + pieces))
  {
    names := start;
    assert earlier + pieces[..0] == earlier;
    for j := 0 to |pieces|
      invariant names == NonEmpty(earlier + pieces[..j]) && "*" !in pieces[..j]
    {
      if pieces[j] == "*" {
        return names, true;
      }
      assert earlier + pieces[..j + 1] == earlier + pieces[..j] + [pieces[j]];
      NonEmptyOneMore(earlier + pieces[..j], pieces[j]);
      if pieces[j] != "" {
        names := names + [pieces[j]];
      }
    }
    assert pieces[..|pieces|] == pieces;
    any := false;
  }

  /** `varyValues` */
  method ReadVaryValues(x: Syntax, req: Request, h: Header) returns (values: map<string, string>)
    ensures values == VaryValues(x, req, h)
  {
    var fields := ReadVary(x, h);
    values := map[];
    for i := 0 to |fields|
      invariant values == map n | n in fields[..i] :: Get(req.header, n)
    {
      values := values[fields[i] := Get(req.header, fields[i])];
    }
  }

  /** `matches` */
  method CheckVary(vary: map<string, string>, req: Request) returns (ok: bool)
    ensures ok == Matches(vary, req)
  {
    var left := vary.Keys;
    while left != {}
      invariant left <= vary.Keys && forall n :: n in vary && n !in left ==> Get(req.header, n) == vary[n]
    {
      var n :| n in left;
      if Get(req.header, n) != vary[n] {
        return false;
      }
      left := left - {n};
    }
    return true;
  }
}
