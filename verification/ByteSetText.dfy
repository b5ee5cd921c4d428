/** `Set.String`: a set of bytes as a character class, and back. */
module ByteSetText {
  import opened Prelude
  import opened ByteSet

  predicate Has(s: Set, n: nat)
    requires n < 256
  {
    Contains(s, n as bv8)
  }

  ghost function Members(s: Set): set<nat> {
    set n: nat | n < 256 && Has(s, n)
  }

  const HEX := "0123456789abcdef"

  predicate Special(c: char) { c == '\\' || c == ']' || c == '^' || c == '-' }

  /** `escape`: one byte as it appears inside a class. */
  function Escape(b: nat): string
    requires b < 256
  {
    if Special(b as char) then ['\\', b as char]
    else if b < 0x21 || b > 0x7E then ['\\', 'x', HEX[b / 16], HEX[b % 16]]
    else [b as char]
  }

  // ------------------------------------------------------------------ decoding

  function HexValue(c: char): Option<nat> {
    if '0' <= c <= '9' then Some((c - '0') as nat)
    else if 'a' <= c <= 'f' then Some((c - 'a') as nat + 10)
    else None
  }

  /** The byte spelled at the front of `t`, and what follows it. */
  function ReadByte(t: string): (r: Option<(nat, string)>)
    ensures r.Some? ==> |r.value.1| < |t|
  {
    if t == "" then None
    else if t[0] == '\\' then
      if |t| >= 2 && Special(t[1]) then Some((t[1] as nat, t[2..]))
      else if |t| >= 4 && t[1] == 'x' && HexValue(t[2]).Some? && HexValue(t[3]).Some? then
        Some((16 * HexValue(t[2]).value + HexValue(t[3]).value, t[4..]))
      else None
    else if Special(t[0]) then None
    else Some((t[0] as nat, t[1..]))
  }

  function Span(lo: nat, hi: nat): (r: set<nat>)
    ensures forall n :: n in r <==> lo <= n <= hi
    decreases hi - lo
  {
    if hi < lo then {} else {lo} + Span(lo + 1, hi)
  }

  /** The members of a class, read from after its opening bracket. */
  function DecodeFrom(t: string): Option<set<nat>>
    decreases |t|
  {
    if t == "]" then Some({})
    else
      var first := ReadByte(t);
      if first.None? then None
      else
        var (lo, rest) := first.value;
        if rest != "" && rest[0] == '-' then
          var second := ReadByte(rest[1..]);
          if second.None? then None
          else
            var more := DecodeFrom(second.value.1);
            if more.None? then None else Some(Span(lo, second.value.0) + more.value)
        else
          var more := DecodeFrom(rest);
          if more.None? then None else Some({lo} + more.value)
  }

  function Decode(t: string): Option<set<nat>> {
    if t != "" && t[0] == '[' then DecodeFrom(t[1..]) else None
  }

  // ----------------------------------------------------------------- rendering

  /** The last byte of the run of members that starts at `lo`. */
  function RunEnd(m: set<nat>, lo: nat): (hi: nat)
    requires lo < 256
    ensures lo <= hi < 256 && (forall n :: lo < n <= hi ==> n in m) && (hi + 1 < 256 ==> hi + 1 !in m)
    decreases 256 - lo
  {
    if lo + 1 < 256 && lo + 1 in m then RunEnd(m, lo + 1) else lo
  }

  /** The text of one run: up to two bytes one by one, more as a span. */
  function Chunk(lo: nat, hi: nat): string
    requires lo <= hi < 256
  {
    if hi == lo then Escape(lo)
    else if hi == lo + 1 then Escape(lo) + Escape(hi)
    else Escape(lo) + "-" + Escape(hi)
  }

  /** A byte is written as itself if it is visible ASCII, behind a backslash if it means
      something in a class, and as two lower-case hexadecimal digits otherwise. */
  lemma EscapeMeans(b: nat)
    requires b < 256
    ensures b == 0x5C || b == 0x5D || b == 0x5E || b == 0x2D ==> Escape(b) == ['\\', b as char]
    ensures 0x21 <= b <= 0x7E && b != 0x5C && b != 0x5D && b != 0x5E && b != 0x2D ==> Escape(b) == [b as char]
    ensures b < 0x21 || 0x7E < b ==>
              && |Escape(b)| == 4 && Escape(b)[..2] == "\\x"
              && HexValue(Escape(b)[2]) == Some(b / 16) && HexValue(Escape(b)[3]) == Some(b % 16)
  {
    if b < 0x21 || 0x7E < b {
      HexReads(b / 16);
      HexReads(b % 16);
    }
  }

  /** A hyphen only spans three bytes or more. */
  lemma ChunkMeans(lo: nat, hi: nat)
    requires lo <= hi < 256
    ensures hi - lo == 0 ==> Chunk(lo, hi) == Escape(lo)
    ensures hi - lo == 1 ==> Chunk(lo, hi) == Escape(lo) + Escape(lo + 1)
    ensures hi - lo >= 2 ==> Chunk(lo, hi) == Escape(lo) + "-" + Escape(hi)
  {
  }

  function RenderFrom(m: set<nat>, lo: nat): string
    decreases 256 - lo
  {
    if lo >= 256 then ""
    else if lo !in m then RenderFrom(m, lo + 1)
    else Chunk(lo, RunEnd(m, lo)) + RenderFrom(m, RunEnd(m, lo) + 1)
  }

  lemma RenderStep(m: set<nat>, lo: nat, t: string)
    requires lo < 256
    ensures t + RenderFrom(m, lo) ==
      if lo in m then t + Chunk(lo, RunEnd(m, lo)) + RenderFrom(m, RunEnd(m, lo) + 1) else t + RenderFrom(m, lo + 1)
  {
  }

  /** The inner loop of `String`, which finds where a run ends. */
  method FindRunEnd(s: Set, lo: nat) returns (hi: nat)
    requires lo < 256
    ensures hi == RunEnd(Members(s), lo)
  {
    hi := lo;
    while hi + 1 < 256 && Has(s, hi + 1)
      invariant lo <= hi < 256 && RunEnd(Members(s), hi) == RunEnd(Members(s), lo)
    {
      hi := hi + 1;
    }
  }

  /** `String`: scan for runs, write each, close the bracket. */
  method Render(s: Set) returns (t: string)
    ensures t == "[" + RenderFrom(Members(s), 0) + "]"
  {
    t := "[";
    var lo := 0;
    ghost var m := Members(s);
    while lo < 256
      invariant 0 <= lo <= 257
      invariant t + RenderFrom(m, lo) == "[" + RenderFrom(m, 0)
      decreases 257 - lo
    {
      RenderStep(m, lo, t);
      if !Has(s, lo) {
        lo := lo + 1;
      } else {
        var hi := FindRunEnd(s, lo);
        t := t + Chunk(lo, hi);
        lo := hi + 1;
      }
    }
    assert RenderFrom(m, lo) == "" && t + "" == t;
    t := t + "]";
  }

  // ---------------------------------------------------------------- round trip

  lemma HexReads(d: nat)
    requires d < 16
    ensures HexValue(HEX[d]) == Some(d)
  {
  }

  lemma EscapeReads(b: nat, rest: string)
    requires b < 256
    ensures ReadByte(Escape(b) + rest) == Some((b, rest))
    ensures Escape(b) != "" && Escape(b)[0] != '-' && Escape(b)[0] != ']'
  {
    var t := Escape(b) + rest;
    if Special(b as char) {
      assert t[2..] == rest;
    } else if b < 0x21 || b > 0x7E {
      HexReads(b / 16);
      HexReads(b % 16);
      assert t[2] == HEX[b / 16] && t[3] == HEX[b % 16] && t[4..] == rest;
    } else {
      assert t[1..] == rest;
    }
  }

  lemma {:induction false} RenderStarts(m: set<nat>, lo: nat)
    ensures var t := RenderFrom(m, lo) + "]"; t[0] != '-'
    decreases 256 - lo
  {
    if lo < 256 {
      if lo !in m {
        RenderStarts(m, lo + 1);
      } else {
        EscapeReads(lo, "");
      }
    }
  }

  lemma SingleReads(t: string, lo: nat, rest: string)
    requires ReadByte(t) == Some((lo, rest)) && rest != "" && rest[0] != '-' && DecodeFrom(rest).Some?
    ensures DecodeFrom(t) == Some({lo} + DecodeFrom(rest).value)
  {
  }

  lemma PairReads(t: string, lo: nat, middle: string, hi: nat, rest: string)
    requires ReadByte(t) == Some((lo, "-" + middle)) && ReadByte(middle) == Some((hi, rest)) && DecodeFrom(rest).Some?
    ensures DecodeFrom(t) == Some(Span(lo, hi) + DecodeFrom(rest).value)
  {
    assert ("-" + middle)[1..] == middle;
  }

  lemma OneReads(b: nat, rest: string)
    requires b < 256 && rest != "" && rest[0] != '-' && DecodeFrom(rest).Some?
    ensures DecodeFrom(Escape(b) + rest) == Some({b} + DecodeFrom(rest).value)
  {
    EscapeReads(b, rest);
    SingleReads(Escape(b) + rest, b, rest);
  }

  lemma TwoRead(lo: nat, rest: string)
    requires lo + 1 < 256 && rest != "" && rest[0] != '-' && DecodeFrom(rest).Some?
    ensures DecodeFrom(Escape(lo) + (Escape(lo + 1) + rest)) == Some({lo} + ({lo + 1} + DecodeFrom(rest).value))
  {
    OneReads(lo + 1, rest);
    assert Escape(lo + 1) != "" && Escape(lo + 1)[0] != '-' by { EscapeReads(lo + 1, ""); }
    OneReads(lo, Escape(lo + 1) + rest);
  }

  lemma RangeReads(lo: nat, hi: nat, rest: string)
    requires lo <= hi < 256 && DecodeFrom(rest).Some?
    ensures DecodeFrom(Escape(lo) + ("-" + (Escape(hi) + rest))) == Some(Span(lo, hi) + DecodeFrom(rest).value)
  {
    var last := Escape(hi) + rest;
    assert ReadByte(last) == Some((hi, rest)) by { EscapeReads(hi, rest); }
    var t := Escape(lo) + ("-" + last);
    assert ReadByte(t) == Some((lo, "-" + last)) by { EscapeReads(lo, "-" + last); }
    PairReads(t, lo, last, hi, rest);
  }

  lemma Regroup(a: string, b: string, c: string, d: string)
    ensures a + b + c + d == a + (b + (c + d)) && a + "" == a && "" + (c + d) == c + d
  {
  }

  /** A chunk reads back as the run it was written for. */
  lemma ChunkReads(lo: nat, hi: nat, rest: string)
    requires lo <= hi < 256 && rest != "" && rest[0] != '-' && DecodeFrom(rest).Some?
    ensures DecodeFrom(Chunk(lo, hi) + rest).Some?
    ensures DecodeFrom(Chunk(lo, hi) + rest).value == Span(lo, hi) + DecodeFrom(rest).value
  {
    if hi == lo {
      OneReads(lo, rest);
      assert Span(lo, hi) == {lo};
    } else if hi == lo + 1 {
      TwoRead(lo, rest);
      Regroup(Escape(lo), "", Escape(hi), rest);
      assert Span(lo, hi) + DecodeFrom(rest).value == {lo} + ({hi} + DecodeFrom(rest).value);
    } else {
      RangeReads(lo, hi, rest);
      Regroup(Escape(lo), "-", Escape(hi), rest);
    }
  }

  ghost function From(m: set<nat>, lo: nat): set<nat> { set n | n in m && lo <= n }

  lemma FromRun(m: set<nat>, lo: nat, hi: nat)
    requires lo in m && lo < 256 && hi == RunEnd(m, lo)
    ensures From(m, lo) == Span(lo, hi) + From(m, hi + 1)
  {
  }

  lemma {:induction false} RenderReads(m: set<nat>, lo: nat)
    requires forall n :: n in m ==> n < 256
    ensures DecodeFrom(RenderFrom(m, lo) + "]") == Some(From(m, lo))
    decreases 256 - lo
  {
    if lo >= 256 {
      assert RenderFrom(m, lo) + "]" == "]" && From(m, lo) == {};
    } else if lo !in m {
      RenderReads(m, lo + 1);
      assert From(m, lo) == From(m, lo + 1);
    } else {
      var hi := RunEnd(m, lo);
      var t := RenderFrom(m, hi + 1) + "]";
      RenderReads(m, hi + 1);
      RenderStarts(m, hi + 1);
      RunReads(m, lo, hi, t);
    }
  }

  lemma RunReads(m: set<nat>, lo: nat, hi: nat, t: string)
    requires lo in m && lo < 256 && hi == RunEnd(m, lo) && t == RenderFrom(m, hi + 1) + "]" && t[0] != '-'
    requires DecodeFrom(t) == Some(From(m, hi + 1))
    ensures DecodeFrom(RenderFrom(m, lo) + "]") == Some(From(m, lo))
  {
    assert RenderFrom(m, lo) + "]" == Chunk(lo, hi) + t;
    ChunkReads(lo, hi, t);
    FromRun(m, lo, hi);
  }

  lemma BracketReads(body: string)
    ensures Decode("[" + body + "]") == DecodeFrom(body + "]")
  {
    assert ("[" + body + "]")[1..] == body + "]";
  }

  lemma FromStart(m: set<nat>)
    ensures From(m, 0) == m
  {
  }

  /** What `String` writes reads back as the members of the set. */
  lemma RoundTrip(s: Set)
    ensures Decode("[" + RenderFrom(Members(s), 0) + "]") == Some(Members(s))
  {
    BracketReads(RenderFrom(Members(s), 0));
    RenderReads(Members(s), 0);
    FromStart(Members(s));
  }

  /** Different sets never render alike. */
  lemma RenderingIsInjective(s: Set, t: Set)
    requires "[" + RenderFrom(Members(s), 0) + "]" == "[" + RenderFrom(Members(t), 0) + "]"
    ensures s == t
  {
    RoundTrip(s);
    RoundTrip(t);
    forall c ensures Contains(s, c) <==> Contains(t, c) {
      var n := c as nat;
      assert n as bv8 == c;
      assert n in Members(s) <==> n in Members(t);
    }
    SameMembersSameSet(s, t);
  }
}
