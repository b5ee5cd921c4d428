/** Cutting UTF-8 text at rune boundaries (sections 3 and 4 of RFC 3629). */
module Utf8 {

  type Text = seq<bv8>

  predicate Tail(b: bv8) { 0x80 <= b <= 0xBF }

  /** The second byte a three- or four-byte rune may have after its first. */
  predicate Second(first: bv8, b: bv8) {
    if first == 0xE0 then 0xA0 <= b <= 0xBF
    else if first == 0xED then 0x80 <= b <= 0x9F
    else if first == 0xF0 then 0x90 <= b <= 0xBF
    else if first == 0xF4 then 0x80 <= b <= 0x8F
    else Tail(b)
  }

  /** The length of the rune at the front of `s`, zero if there is none. */
  function RuneLength(s: Text): (n: nat)
    ensures n <= |s| && n <= 4
    ensures 0 < n ==> RuneStart(s[0]) && forall i :: 1 <= i < n ==> !RuneStart(s[i])
  {
    if s == [] then 0
    else if s[0] <= 0x7F then 1
    else if 0xC2 <= s[0] <= 0xDF then (if |s| >= 2 && Tail(s[1]) then 2 else 0)
    else if 0xE0 <= s[0] <= 0xEF then (if |s| >= 3 && Second(s[0], s[1]) && Tail(s[2]) then 3 else 0)
    else if 0xF0 <= s[0] <= 0xF4 then (if |s| >= 4 && Second(s[0], s[1]) && Tail(s[2]) && Tail(s[3]) then 4 else 0)
    else 0
  }

  /** `utf8.ValidString` */
  predicate Valid(s: Text)
    decreases |s|
  {
    s == [] || (0 < RuneLength(s) && Valid(s[RuneLength(s)..]))
  }

  /** `utf8.RuneStart`: not a continuation byte. */
  predicate RuneStart(b: bv8) { b & 0xC0 != 0x80 }

  /** `k` bytes of `s` are a whole number of its runes. */
  predicate Boundary(s: Text, k: nat)
    decreases |s|
  {
    k == 0 || (0 < RuneLength(s) <= k <= |s| && Boundary(s[RuneLength(s)..], k - RuneLength(s)))
  }

  lemma PrefixRune(s: Text, k: nat)
    requires 0 < RuneLength(s) <= k <= |s|
    ensures RuneLength(s[..k]) == RuneLength(s)
  {
  }

  lemma ShortRune(s: Text, k: nat)
    requires 0 < k < RuneLength(s)
    ensures RuneLength(s[..k]) == 0
  {
  }

  /** Cutting valid text leaves valid text exactly at the rune boundaries. */
  lemma {:induction false} BoundaryIsValidPrefix(s: Text, k: nat)
    requires Valid(s) && k <= |s|
    ensures Boundary(s, k) <==> Valid(s[..k])
    decreases |s|
  {
    if k > 0 {
      var n := RuneLength(s);
      if n <= k {
        PrefixRune(s, k);
        BoundaryIsValidPrefix(s[n..], k - n);
        assert s[..k][n..] == s[n..][..k - n];
      } else {
        ShortRune(s, k);
      }
    }
  }

  /** In valid text the boundaries are where a rune starts. */
  lemma {:induction false} BoundaryIsRuneStart(s: Text, k: nat)
    requires Valid(s) && k < |s|
    ensures Boundary(s, k) <==> RuneStart(s[k])
    decreases |s|
  {
    var n := RuneLength(s);
    if k >= n {
      BoundaryIsRuneStart(s[n..], k - n);
      assert s[n..][k - n] == s[k];
    }
  }

  /** A boundary is never more than three bytes back. */
  lemma {:induction false} BoundaryIsNear(s: Text, k: nat)
    requires Valid(s) && k <= |s|
    ensures exists j :: 0 <= j <= k && k - j <= 3 && Boundary(s, j)
    decreases |s|
  {
    var n := RuneLength(s);
    if k == 0 || k < n {
      assert Boundary(s, 0);
    } else {
      BoundaryIsNear(s[n..], k - n);
      var j :| 0 <= j <= k - n && k - n - j <= 3 && Boundary(s[n..], j);
      assert Boundary(s, j + n);
    }
  }

  /** `TruncateUTF8`: of any text, a prefix within the limit; of valid text, the longest
      valid one, at most three bytes short of the limit when it cuts. */
  method TruncateUTF8(s: Text, limit: int) returns (r: Text)
    ensures r <= s && (0 <= limit ==> |r| <= limit) && (limit <= 0 ==> r == []) && (0 < limit && |s| <= limit ==> r == s)
    ensures Valid(s) ==> Valid(r)
    ensures Valid(s) ==> forall k :: 0 <= k <= |s| && k <= limit && Valid(s[..k]) ==> k <= |r|
    ensures Valid(s) && 0 < limit < |s| ==> limit - 3 <= |r|
  {
    if limit <= 0 {
      return [];
    }
    if |s| <= limit {
      return s;
    }
    var cut := limit;
    while cut > 0 && !RuneStart(s[cut])
      invariant 0 <= cut <= limit
      invariant forall k :: cut < k <= limit ==> !RuneStart(s[k])
    {
      cut := cut - 1;
    }
    r := s[..cut];
    if Valid(s) {
      CutIsLongest(s, cut, limit);
    }
  }

  lemma CutIsLongest(s: Text, cut: nat, limit: nat)
    requires Valid(s) && cut <= limit < |s| && (cut == 0 || RuneStart(s[cut]))
    requires forall k :: cut < k <= limit ==> !RuneStart(s[k])
    ensures Valid(s[..cut]) && limit - 3 <= cut
    ensures forall k :: 0 <= k <= limit && Valid(s[..k]) ==> k <= cut
  {
    if cut > 0 { BoundaryIsRuneStart(s, cut); }
    BoundaryIsValidPrefix(s, cut);
    forall k | cut < k <= limit ensures !Valid(s[..k]) && !Boundary(s, k) {
      BoundaryIsRuneStart(s, k);
      BoundaryIsValidPrefix(s, k);
    }
    BoundaryIsNear(s, limit);
  }

  /** Valid up to at most three bytes from the end. */
  ghost predicate TextButForItsEnd(s: Text) {
    exists k :: 0 <= k <= |s| && |s| - k <= 3 && Valid(s[..k])
  }

  /** `isText`: text, forgiving an unfinished rune at the end. */
  method IsText(s: Text) returns (ok: bool)
    ensures ok <==> TextButForItsEnd(s)
  {
    var cut := 0;
    while cut < 4 && cut <= |s|
      invariant 0 <= cut <= 4 && cut <= |s| + 1
      invariant forall k :: 0 <= k <= |s| && |s| - cut < k ==> !Valid(s[..k])
    {
      if Valid(s[..|s| - cut]) {
        return true;
      }
      cut := cut + 1;
    }
    return false;
  }

  /** Every byte prefix of every valid text is accepted as text. */
  lemma PrefixOfTextIsText(whole: Text, n: nat)
    requires Valid(whole) && n <= |whole|
    ensures TextButForItsEnd(whole[..n])
  {
    var s := whole[..n];
    BoundaryIsNear(whole, n);
    var j :| 0 <= j <= n && n - j <= 3 && Boundary(whole, j);
    BoundaryIsValidPrefix(whole, j);
    assert s[..j] == whole[..j];
  }

  // --------------------------------------------- what valid text is made of

  /** A character number UTF-8 can encode: not a surrogate, at most 10FFFF. */
  predicate Scalar(c: bv32) { c < 0xD800 || 0xE000 <= c <= 0x10FFFF }

  function Continue(c: bv32): bv8 { (0x80 | (c & 0x3F)) as bv8 }

  /** Section 3 of RFC 3629. */
  function Encode(c: bv32): Text
    requires Scalar(c)
  {
    if c <= 0x7F then [c as bv8]
    else if c <= 0x7FF then [(0xC0 | (c >> 6)) as bv8, Continue(c)]
    else if c <= 0xFFFF then [(0xE0 | (c >> 12)) as bv8, Continue(c >> 6), Continue(c)]
    else [(0xF0 | (c >> 18)) as bv8, Continue(c >> 12), Continue(c >> 6), Continue(c)]
  }

  function Low6(b: bv8): bv32 { (b & 0x3F) as bv32 }

  function Join2(a: bv8, b: bv8): bv32 { ((a & 0x1F) as bv32 << 6) | Low6(b) }
  function Join3(a: bv8, b: bv8, c: bv8): bv32 { ((a & 0x0F) as bv32 << 12) | (Low6(b) << 6) | Low6(c) }
  function Join4(a: bv8, b: bv8, c: bv8, d: bv8): bv32 {
    ((a & 0x07) as bv32 << 18) | (Low6(b) << 12) | (Low6(c) << 6) | Low6(d)
  }

  /** The character number of the rune at the front. */
  function Decode(s: Text): bv32
    requires 0 < RuneLength(s)
  {
    var n := RuneLength(s);
    if n == 1 then s[0] as bv32
    else if n == 2 then Join2(s[0], s[1])
    else if n == 3 then Join3(s[0], s[1], s[2])
    else Join4(s[0], s[1], s[2], s[3])
  }

  lemma Splits2(x: bv32, a: bv8, b: bv8)
    requires 0x80 <= x <= 0x7FF && a == (0xC0 | (x >> 6)) as bv8 && b == Continue(x)
    ensures 0xC2 <= a <= 0xDF && Tail(b) && Join2(a, b) == x
  {
  }

  lemma Splits3(x: bv32, a: bv8, b: bv8, c: bv8)
    requires 0x800 <= x <= 0xFFFF && Scalar(x) && a == (0xE0 | (x >> 12)) as bv8 && b == Continue(x >> 6) && c == Continue(x)
    ensures 0xE0 <= a <= 0xEF && Second(a, b) && Tail(c) && Join3(a, b, c) == x
  {
    Rejoins3(x, a, b, c);
    SecondByte3(x, a, b);
  }

  lemma Rejoins3(x: bv32, a: bv8, b: bv8, c: bv8)
    requires x <= 0xFFFF && a == (0xE0 | (x >> 12)) as bv8 && b == Continue(x >> 6) && c == Continue(x)
    ensures 0xE0 <= a <= 0xEF && Tail(c) && Join3(a, b, c) == x
  {
  }

  lemma SecondByte3(x: bv32, a: bv8, b: bv8)
    requires 0x800 <= x <= 0xFFFF && Scalar(x) && a == (0xE0 | (x >> 12)) as bv8 && b == Continue(x >> 6)
    ensures Second(a, b)
  {
  }

  lemma Splits4(x: bv32, a: bv8, b: bv8, c: bv8, d: bv8)
    requires 0x10000 <= x <= 0x10FFFF && a == (0xF0 | (x >> 18)) as bv8
    requires b == Continue(x >> 12) && c == Continue(x >> 6) && d == Continue(x)
    ensures 0xF0 <= a <= 0xF4 && Second(a, b) && Tail(c) && Tail(d) && Join4(a, b, c, d) == x
  {
  }

  /** Encoding a character number yields one rune, which decodes to it. */
  lemma EncodeIsRune(x: bv32, rest: Text)
    requires Scalar(x)
    ensures RuneLength(Encode(x) + rest) == |Encode(x)| && Decode(Encode(x) + rest) == x
  {
    var e := Encode(x);
    var s := e + rest;
    assert forall i :: 0 <= i < |e| ==> s[i] == e[i];
    if |e| == 2 { Splits2(x, e[0], e[1]); }
    else if |e| == 3 { Splits3(x, e[0], e[1], e[2]); }
    else if |e| == 4 { Splits4(x, e[0], e[1], e[2], e[3]); }
  }

  lemma Joins2(a: bv8, b: bv8)
    requires 0xC2 <= a <= 0xDF && Tail(b)
    ensures var x := Join2(a, b); 0x80 <= x <= 0x7FF && a == (0xC0 | (x >> 6)) as bv8 && b == Continue(x)
  {
  }

  lemma Joins3(a: bv8, b: bv8, c: bv8)
    requires 0xE0 <= a <= 0xEF && Second(a, b) && Tail(c)
    ensures var x := Join3(a, b, c);
            0x800 <= x <= 0xFFFF && Scalar(x) && a == (0xE0 | (x >> 12)) as bv8 && b == Continue(x >> 6) && c == Continue(x)
  {
  }

  lemma Joins4(a: bv8, b: bv8, c: bv8, d: bv8)
    requires 0xF0 <= a <= 0xF4 && Second(a, b) && Tail(c) && Tail(d)
    ensures var x := Join4(a, b, c, d);
            && 0x10000 <= x <= 0x10FFFF && a == (0xF0 | (x >> 18)) as bv8
            && b == Continue(x >> 12) && c == Continue(x >> 6) && d == Continue(x)
  {
  }

  /** Every rune the table admits is the encoding of a character number. */
  lemma RuneIsEncoded(s: Text)
    requires 0 < RuneLength(s)
    ensures Scalar(Decode(s)) && Encode(Decode(s)) == s[..RuneLength(s)]
  {
    var n := RuneLength(s);
    if n == 2 { Joins2(s[0], s[1]); assert s[..2] == [s[0], s[1]]; }
    else if n == 3 { Joins3(s[0], s[1], s[2]); assert s[..3] == [s[0], s[1], s[2]]; }
    else if n == 4 { Joins4(s[0], s[1], s[2], s[3]); assert s[..4] == [s[0], s[1], s[2], s[3]]; }
  }

  predicate Scalars(xs: seq<bv32>) { forall i :: 0 <= i < |xs| ==> Scalar(xs[i]) }

  function EncodeAll(xs: seq<bv32>): Text
    requires Scalars(xs)
  {
    if xs == [] then [] else Encode(xs[0]) + EncodeAll(xs[1..])
  }

  lemma {:induction false} EncodedIsValid(xs: seq<bv32>)
    requires Scalars(xs)
    ensures Valid(EncodeAll(xs))
  {
    if xs != [] {
      var rest := EncodeAll(xs[1..]);
      EncodedIsValid(xs[1..]);
      EncodeIsRune(xs[0], rest);
      assert (Encode(xs[0]) + rest)[|Encode(xs[0])|..] == rest;
    }
  }

  lemma {:induction false} ValidIsEncoded(s: Text) returns (xs: seq<bv32>)
    requires Valid(s)
    ensures Scalars(xs) && EncodeAll(xs) == s
    decreases |s|
  {
    xs := [];
    if s != [] {
      var n := RuneLength(s);
      var more := ValidIsEncoded(s[n..]);
      RuneIsEncoded(s);
      xs := [Decode(s)] + more;
      assert xs[1..] == more;
    }
  }

  /** Valid text is exactly the encodings of sequences of character numbers. */
  lemma ValidIffEncoded(s: Text)
    ensures Valid(s) <==> exists xs :: Scalars(xs) && EncodeAll(xs) == s
  {
    if Valid(s) {
      var xs := ValidIsEncoded(s);
    }
    forall xs | Scalars(xs) && EncodeAll(xs) == s ensures Valid(s) { EncodedIsValid(xs); }
  }
}
