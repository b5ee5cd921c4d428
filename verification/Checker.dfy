/** `Checker`: one pass over a string against splitting it on the separator. */
module Checker {
  import opened ByteSet

  type Text = seq<bv8>

  datatype Checker = Checker(
    body: Set, first: Set, minLength: int, maxLength: int, maxSegs: int,
    hasFirst: bool, separator: bv8, segmented: bool)

  datatype Opt =
    | WithFirst(first: Set)
    | AllowEmpty
    | WithMaxLength(n: int)
    | WithExactLength(n: int)
    | WithSeparator(sep: bv8, maxSegments: int)

  // ------------------------------------------------------------- construction

  function Apply(c: Checker, o: Opt): Checker {
    match o
    case WithFirst(first) => c.(first := first, hasFirst := true)
    case AllowEmpty => c.(minLength := 0)
    case WithMaxLength(n) => c.(maxLength := n)
    case WithExactLength(n) => c.(minLength := n, maxLength := n)
    case WithSeparator(sep, m) => c.(separator := sep, segmented := true, maxSegs := m)
  }

  function Configured(body: Set, opts: seq<Opt>): Checker {
    if opts == [] then Checker(body, EMPTY, 1, -1, 0, false, 0, false)
    else Apply(Configured(body, opts[..|opts| - 1]), opts[|opts| - 1])
  }

  datatype Setting = First | Least | Most | Separator

  predicate Sets(o: Opt, k: Setting) {
    match k
    case First => o.WithFirst?
    case Least => o.AllowEmpty? || o.WithExactLength?
    case Most => o.WithMaxLength? || o.WithExactLength?
    case Separator => o.WithSeparator?
  }

  /** What options come to: each setting is that of the last option to speak of it, at
      `i`, and without one a text must not be empty, may be of any length, may begin with
      any byte of the body and has no separator. */
  lemma {:induction false} OptionsMean(body: Set, opts: seq<Opt>, k: Setting, i: nat)
    ensures Configured(body, opts).body == body
    ensures (forall j :: 0 <= j < |opts| ==> !Sets(opts[j], k)) ==>
              var c := Configured(body, opts);
              match k
              case First => !c.hasFirst
              case Least => c.minLength == 1
              case Most => c.maxLength == -1
              case Separator => !c.segmented
    ensures i < |opts| && Sets(opts[i], k) && (forall j :: i < j < |opts| ==> !Sets(opts[j], k)) ==>
              var c := Configured(body, opts);
              match k
              case First => c.hasFirst && c.first == opts[i].first
              case Least => c.minLength == if opts[i].AllowEmpty? then 0 else opts[i].n
              case Most => c.maxLength == opts[i].n
              case Separator => c.segmented && c.separator == opts[i].sep && c.maxSegs == opts[i].maxSegments
    decreases |opts|
  {
    if opts != [] {
      var n := |opts| - 1;
      OptionsMean(body, opts[..n], k, i);
      assert Sets(opts[n], k) || forall j :: 0 <= j < n ==> opts[..n][j] == opts[j];
    }
  }

  /** The set less one byte. */
  method Drop(s: Set, b: bv8) returns (r: Set)
    ensures forall x :: Contains(r, x) <==> Contains(s, x) && x != b
  {
    var one := Bytes([b]);
    r := Without(s, [one]);
    forall x ensures Contains(r, x) <==> Contains(s, x) && x != b {
      assert one in [one];
      assert Contains(one, x) <==> x == b;
    }
  }

  /** `New`: the options in order, then the separator taken out of both alphabets. */
  method New(body: Set, opts: seq<Opt>) returns (c: Checker)
    ensures var d := Configured(body, opts);
            && c == d.(body := c.body, first := c.first)
            && (forall b :: Contains(c.body, b) <==> Contains(d.body, b) && !(d.segmented && b == d.separator))
            && (forall b :: Contains(c.first, b) <==> Contains(d.first, b) && !(d.segmented && b == d.separator))
  {
    c := Checker(body, EMPTY, 1, -1, 0, false, 0, false);
    var i := 0;
    while i < |opts|
      invariant 0 <= i <= |opts| && c == Configured(body, opts[..i])
    {
      assert opts[..i + 1][..i] == opts[..i];
      c := Apply(c, opts[i]);
      i := i + 1;
    }
    assert opts[..i] == opts;
    if c.segmented {
      var b := Drop(c.body, c.separator);
      var f := Drop(c.first, c.separator);
      c := c.(body := b, first := f);
    }
  }

  // ------------------------------------------------------------ specification

  /** `validSegment`: non-empty, with the right first byte and then only body bytes. */
  predicate SegmentOk(c: Checker, s: Text) {
    s != [] && Contains(if c.hasFirst then c.first else c.body, s[0]) && forall i :: 1 <= i < |s| ==> Contains(c.body, s[i])
  }

  /** The pieces between separators: one more than there are separators. */
  function Split(s: Text, sep: bv8): (r: seq<Text>)
    ensures r != []
  {
    if s == [] then [[]]
    else
      var rest := Split(s[1..], sep);
      if s[0] == sep then [[]] + rest else [[s[0]] + rest[0]] + rest[1..]
  }

  function Joined(pieces: seq<Text>, sep: bv8): Text
    requires pieces != []
  {
    if |pieces| == 1 then pieces[0] else pieces[0] + [sep] + Joined(pieces[1..], sep)
  }

  /** Splitting is the inverse of joining: the pieces are those of the string. */
  lemma {:induction false} SplitJoins(s: Text, sep: bv8)
    ensures Joined(Split(s, sep), sep) == s
    ensures forall p :: p in Split(s, sep) ==> sep !in p
  {
    if s != [] {
      SplitJoins(s[1..], sep);
      var rest := Split(s[1..], sep);
      assert s == [s[0]] + s[1..];
      if s[0] == sep {
        assert ([[]] + rest)[1..] == rest;
      } else {
        var all := [[s[0]] + rest[0]] + rest[1..];
        assert all[1..] == rest[1..];
        if |rest| > 1 { assert Joined(all, sep) == [s[0]] + rest[0] + [sep] + Joined(rest[1..], sep); }
      }
    }
  }

  ghost predicate LengthOk(c: Checker, s: Text) {
    c.minLength <= |s| && (0 <= c.maxLength ==> |s| <= c.maxLength)
  }

  /** The rule, stated over the split string. */
  ghost predicate Satisfies(c: Checker, s: Text) {
    LengthOk(c, s) &&
    (|| s == []
     || (!c.segmented && SegmentOk(c, s))
     || (c.segmented
         && (0 < c.maxSegs ==> |Split(s, c.separator)| <= c.maxSegs)
         && forall p :: p in Split(s, c.separator) ==> SegmentOk(c, p)))
  }

  // -------------------------------------------------------------- the one pass

  lemma {:induction false} SplitPlain(t: Text, sep: bv8)
    requires sep !in t
    ensures Split(t, sep) == [t]
  {
    if t != [] {
      SplitPlain(t[1..], sep);
      assert [t[0]] + t[1..] == t;
    }
  }

  lemma {:induction false} SplitAt(t: Text, sep: bv8, k: nat)
    requires k < |t| && t[k] == sep && sep !in t[..k]
    ensures Split(t, sep) == [t[..k]] + Split(t[k + 1..], sep)
    decreases k
  {
    if k > 0 {
      assert t[1..][..k - 1] == t[1..k] && t[1..][k..] == t[k + 1..];
      assert t[..k][0] == t[0] && forall i :: 1 <= i < k ==> t[..k][i] == t[i];
      SplitAt(t[1..], sep, k - 1);
      assert [t[0]] + t[1..k] == t[..k];
    }
  }

  method ValidSegment(c: Checker, s: Text) returns (ok: bool)
    ensures ok <==> SegmentOk(c, s)
  {
    if s == [] {
      return false;
    }
    var first := if c.hasFirst then c.first else c.body;
    if !Contains(first, s[0]) {
      return false;
    }
    ok := ContainsAll(c.body, s[1..]);
    assert forall i :: 1 <= i < |s| ==> s[i] == s[1..][i - 1];
  }

  /** `Valid` agrees with splitting on the separator and checking every piece, the
      number of pieces and the total length. */
  method Valid(c: Checker, s: Text) returns (ok: bool)
    ensures ok <==> Satisfies(c, s)
  {
    if |s| < c.minLength || (c.maxLength >= 0 && |s| > c.maxLength) {
      return false;
    }
    if s == [] {
      return true;
    }
    if !c.segmented {
      ok := ValidSegment(c, s);
      return;
    }
    ok := Scan(c, s);
  }

  ghost predicate AllGood(c: Checker, t: Text) {
    forall p :: p in Split(t, c.separator) ==> SegmentOk(c, p)
  }

  lemma PieceEnds(c: Checker, s: Text, start: nat, i: nat)
    requires start <= i < |s| && s[i] == c.separator && c.separator !in s[start..i]
    ensures |Split(s[start..], c.separator)| == 1 + |Split(s[i + 1..], c.separator)|
    ensures AllGood(c, s[start..]) <==> SegmentOk(c, s[start..i]) && AllGood(c, s[i + 1..])
  {
    var t := s[start..];
    assert t[..i - start] == s[start..i] && t[i - start + 1..] == s[i + 1..];
    SplitAt(t, c.separator, i - start);
    var rest := Split(s[i + 1..], c.separator);
    assert forall p :: p in [s[start..i]] + rest <==> p == s[start..i] || p in rest;
  }

  lemma LastPiece(c: Checker, s: Text, start: nat)
    requires start <= |s| && c.separator !in s[start..]
    ensures |Split(s[start..], c.separator)| == 1
    ensures AllGood(c, s[start..]) <==> SegmentOk(c, s[start..])
  {
    SplitPlain(s[start..], c.separator);
  }

  /** What the loop knows at `i`: `segments` pieces begun, the last at `start`, all
      before it good. */
  ghost predicate Scanned(c: Checker, s: Text, segments: int, start: nat, i: nat) {
    && start <= i <= |s| && c.separator !in s[start..i]
    && |Split(s, c.separator)| == segments - 1 + |Split(s[start..], c.separator)|
    && (AllGood(c, s) <==> AllGood(c, s[start..]))
  }

  lemma ScanOn(c: Checker, s: Text, segments: int, start: nat, i: nat)
    requires Scanned(c, s, segments, start, i) && i < |s| && s[i] != c.separator
    ensures Scanned(c, s, segments, start, i + 1)
  {
    assert s[start..i + 1] == s[start..i] + [s[i]];
  }

  lemma ScanPiece(c: Checker, s: Text, segments: int, start: nat, i: nat)
    requires Scanned(c, s, segments, start, i) && i < |s| && s[i] == c.separator
    ensures |Split(s, c.separator)| >= segments + 1
    ensures if SegmentOk(c, s[start..i]) then Scanned(c, s, segments + 1, i + 1, i + 1) else !AllGood(c, s)
  {
    PieceEnds(c, s, start, i);
    assert s[i + 1..i + 1] == [];
  }

  /** The scanning loop: check each piece where it ends, and count as it goes. */
  method Scan(c: Checker, s: Text) returns (ok: bool)
    ensures ok <==> (0 < c.maxSegs ==> |Split(s, c.separator)| <= c.maxSegs) && AllGood(c, s)
  {
    var segments := 1;
    var start := 0;
    var i := 0;
    assert s[0..] == s;
    while i < |s|
      invariant 0 <= start <= i <= |s| && Scanned(c, s, segments, start, i)
      invariant 0 < c.maxSegs ==> segments <= c.maxSegs
    {
      if s[i] == c.separator {
        ScanPiece(c, s, segments, start, i);
        ok := ValidSegment(c, s[start..i]);
        if !ok {
          return;
        }
        segments := segments + 1;
        if c.maxSegs > 0 && segments > c.maxSegs {
          return false;
        }
        start := i + 1;
      } else {
        ScanOn(c, s, segments, start, i);
      }
      i := i + 1;
    }
    assert s[start..i] == s[start..];
    LastPiece(c, s, start);
    ok := ValidSegment(c, s[start..]);
  }

  /** A checker with a separator accepts only strings in which it separates: no piece
      of an accepted string could hold it. */
  lemma SeparatorSeparates(c: Checker, s: Text)
    requires c.segmented && Satisfies(c, s) && s != []
    ensures Joined(Split(s, c.separator), c.separator) == s
    ensures forall p :: p in Split(s, c.separator) ==> SegmentOk(c, p) && p != [] && c.separator !in p
  {
    SplitJoins(s, c.separator);
  }
}
