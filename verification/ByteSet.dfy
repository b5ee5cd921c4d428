/** A set of bytes as four 64-bit words. */
module ByteSet {

  /** Bit `b & 63` of word `b >> 6` says whether byte `b` is in. */
  type Set = bits: seq<bv64> | |bits| == 4 witness [0, 0, 0, 0]

  const EMPTY: Set := [0, 0, 0, 0]

  function Index(b: bv8): (i: nat)
    ensures i < 4
  {
    var w := b >> 6;
    if w == 0 then 0 else if w == 1 then 1 else if w == 2 then 2 else 3
  }

  function Bit(b: bv8): bv64 { (1 as bv64) << (b & 63) }

  predicate Test(w: bv64, b: bv8) { w & Bit(b) != 0 }

  predicate Contains(s: Set, b: bv8) { Test(s[Index(b)], b) }

  /** Turns on the bit that stands for `b`. */
  function Insert(s: Set, b: bv8): Set { s[Index(b) := s[Index(b)] | Bit(b)] }

  lemma BitsDiffer(b: bv8, c: bv8, w: bv64)
    requires b & 63 != c & 63
    ensures (w | Bit(b)) & Bit(c) == w & Bit(c)
  {
  }

  lemma BitNonZero(b: bv8, w: bv64)
    ensures (w | Bit(b)) & Bit(b) != 0
  {
  }

  lemma SameSlot(b: bv8, c: bv8)
    requires Index(b) == Index(c) && b & 63 == c & 63
    ensures b == c
  {
  }

  lemma InsertSame(s: Set, b: bv8)
    ensures Contains(Insert(s, b), b)
  {
    BitNonZero(b, s[Index(b)]);
  }

  lemma InsertOther(s: Set, b: bv8, c: bv8)
    requires b != c
    ensures Contains(Insert(s, b), c) == Contains(s, c)
  {
    if Index(b) == Index(c) {
      if b & 63 == c & 63 {
        SameSlot(b, c);
      } else {
        BitsDiffer(b, c, s[Index(b)]);
      }
    }
  }

  // ------------------------------------------------------------- constructors

  /** The bytes of the range a counter at `b` has already passed. */
  predicate Passed(lo: bv8, hi: bv8, b: bv16, c: bv8) {
    lo <= c <= hi && c as bv16 < b
  }

  lemma PassedOneMore(lo: bv8, hi: bv8, b: bv16, c: bv8)
    requires lo as bv16 <= b <= hi as bv16
    ensures Passed(lo, hi, b + 1, c) <==> c == b as bv8 || Passed(lo, hi, b, c)
  {
  }

  lemma InsertContains(s: Set, b: bv8, c: bv8)
    ensures Contains(Insert(s, b), c) <==> c == b || Contains(s, c)
  {
    if c == b { InsertSame(s, c); } else { InsertOther(s, b, c); }
  }

  ghost predicate Holds(s: Set, lo: bv8, hi: bv8, b: bv16) {
    forall c :: Contains(s, c) <==> Passed(lo, hi, b, c)
  }

  lemma RangeStarts(lo: bv8, hi: bv8)
    ensures Holds(EMPTY, lo, hi, lo as bv16)
  {
  }

  lemma RangeGrows(s: Set, lo: bv8, hi: bv8, b: bv16)
    requires lo as bv16 <= b <= hi as bv16 && Holds(s, lo, hi, b)
    ensures Holds(Insert(s, b as bv8), lo, hi, b + 1)
  {
    var s1 := Insert(s, b as bv8);
    forall c ensures Contains(s1, c) <==> Passed(lo, hi, b + 1, c) {
      InsertContains(s, b as bv8, c);
      PassedOneMore(lo, hi, b, c);
    }
  }

  lemma RangeEnds(s: Set, lo: bv8, hi: bv8, b: bv16)
    requires hi as bv16 < b && Holds(s, lo, hi, b)
    ensures forall c :: Contains(s, c) <==> lo <= c <= hi
  {
    forall c ensures Contains(s, c) <==> lo <= c <= hi { assert Contains(s, c) <==> Passed(lo, hi, b, c); }
  }

  /** `Range`: the bytes from `lo` to `hi`; the counter is wider than a byte. */
  method Range(lo: bv8, hi: bv8) returns (s: Set)
    ensures forall c :: Contains(s, c) <==> lo <= c <= hi
  {
    s := EMPTY;
    RangeStarts(lo, hi);
    var b := lo as bv16;
    while b <= hi as bv16
      invariant lo as bv16 <= b <= 256
      invariant Holds(s, lo, hi, b)
      decreases 257 - (b as int)
    {
      RangeGrows(s, lo, hi, b);
      s := Insert(s, b as bv8);
      b := b + 1;
    }
    RangeEnds(s, lo, hi, b);
  }

  /** `Bytes`: exactly the given bytes. */
  method Bytes(bs: seq<bv8>) returns (s: Set)
    ensures forall c :: Contains(s, c) <==> c in bs
  {
    s := EMPTY;
    var i := 0;
    while i < |bs|
      invariant 0 <= i <= |bs|
      invariant forall c :: Contains(s, c) <==> c in bs[..i]
    {
      assert bs[..i + 1] == bs[..i] + [bs[i]];
      var s1 := Insert(s, bs[i]);
      forall c ensures Contains(s1, c) <==> c in bs[..i + 1] {
        InsertContains(s, bs[i], c);
      }
      s := s1;
      i := i + 1;
    }
    assert bs[..i] == bs;
  }

  lemma OrMisses(w: bv64, v: bv64, b: bv8)
    requires !Test(w, b) && !Test(v, b)
    ensures !Test(w | v, b)
  {
  }

  lemma OrHits(w: bv64, v: bv64, b: bv8)
    requires Test(w, b)
    ensures Test(w | v, b) && Test(v | w, b)
  {
  }

  lemma AndNotTests(w: bv64, v: bv64, b: bv8)
    ensures (w & !v) & Bit(b) != 0 <==> w & Bit(b) != 0 && v & Bit(b) == 0
  {
  }

  function Or(s: Set, t: Set): Set { seq(4, i requires 0 <= i < 4 => s[i] | t[i]) }

  function AndNot(s: Set, t: Set): Set { seq(4, i requires 0 <= i < 4 => s[i] & !t[i]) }

  lemma TestAndNot(w: bv64, v: bv64, b: bv8)
    ensures Test(w & !v, b) <==> Test(w, b) && !Test(v, b)
  {
    AndNotTests(w, v, b);
  }

  lemma OrContains(s: Set, t: Set, c: bv8)
    ensures Contains(Or(s, t), c) <==> Contains(s, c) || Contains(t, c)
  {
    var i := Index(c);
    assert Or(s, t)[i] == s[i] | t[i];
    if Contains(s, c) { OrHits(s[i], t[i], c); }
    else if Contains(t, c) { OrHits(t[i], s[i], c); }
    else { OrMisses(s[i], t[i], c); }
  }

  lemma AndNotContains(s: Set, t: Set, c: bv8)
    ensures Contains(AndNot(s, t), c) <==> Contains(s, c) && !Contains(t, c)
  {
    var i := Index(c);
    assert AndNot(s, t)[i] == s[i] & !t[i];
    TestAndNot(s[i], t[i], c);
  }

  /** `Union` */
  method Union(s: Set, others: seq<Set>) returns (r: Set)
    ensures forall c :: Contains(r, c) <==> Contains(s, c) || exists t :: t in others && Contains(t, c)
  {
    r := s;
    var i := 0;
    while i < |others|
      invariant 0 <= i <= |others|
      invariant forall c :: Contains(r, c) <==> Contains(s, c) || exists j :: 0 <= j < i && Contains(others[j], c)
    {
      forall c ensures Contains(Or(r, others[i]), c) <==> Contains(r, c) || Contains(others[i], c) {
        OrContains(r, others[i], c);
      }
      r := Or(r, others[i]);
      i := i + 1;
    }
  }

  /** `Without` */
  method Without(s: Set, others: seq<Set>) returns (r: Set)
    ensures forall c :: Contains(r, c) <==> Contains(s, c) && forall t :: t in others ==> !Contains(t, c)
  {
    r := s;
    var i := 0;
    while i < |others|
      invariant 0 <= i <= |others|
      invariant forall c :: Contains(r, c) <==> Contains(s, c) && forall j :: 0 <= j < i ==> !Contains(others[j], c)
    {
      forall c ensures Contains(AndNot(r, others[i]), c) <==> Contains(r, c) && !Contains(others[i], c) {
        AndNotContains(r, others[i], c);
      }
      r := AndNot(r, others[i]);
      i := i + 1;
    }
  }

  /** `ContainsAll` */
  method ContainsAll(s: Set, text: seq<bv8>) returns (all: bool)
    ensures all <==> forall c :: c in text ==> Contains(s, c)
  {
    var i := 0;
    while i < |text|
      invariant 0 <= i <= |text|
      invariant forall j :: 0 <= j < i ==> Contains(s, text[j])
    {
      if !Contains(s, text[i]) {
        return false;
      }
      i := i + 1;
    }
    return true;
  }

  // ------------------------------------------------------- equality is equality

  lemma NoBitsIsZero(x: bv64)
    requires forall b: bv8 :: b < 64 ==> !Test(x, b)
    ensures x == 0
  {
    assert !Test(x, 0) && !Test(x, 1) && !Test(x, 2) && !Test(x, 3) && !Test(x, 4) && !Test(x, 5) && !Test(x, 6) && !Test(x, 7);
    assert !Test(x, 8) && !Test(x, 9) && !Test(x, 10) && !Test(x, 11) && !Test(x, 12) && !Test(x, 13) && !Test(x, 14) && !Test(x, 15);
    assert !Test(x, 16) && !Test(x, 17) && !Test(x, 18) && !Test(x, 19) && !Test(x, 20) && !Test(x, 21) && !Test(x, 22) && !Test(x, 23);
    assert !Test(x, 24) && !Test(x, 25) && !Test(x, 26) && !Test(x, 27) && !Test(x, 28) && !Test(x, 29) && !Test(x, 30) && !Test(x, 31);
    assert !Test(x, 32) && !Test(x, 33) && !Test(x, 34) && !Test(x, 35) && !Test(x, 36) && !Test(x, 37) && !Test(x, 38) && !Test(x, 39);
    assert !Test(x, 40) && !Test(x, 41) && !Test(x, 42) && !Test(x, 43) && !Test(x, 44) && !Test(x, 45) && !Test(x, 46) && !Test(x, 47);
    assert !Test(x, 48) && !Test(x, 49) && !Test(x, 50) && !Test(x, 51) && !Test(x, 52) && !Test(x, 53) && !Test(x, 54) && !Test(x, 55);
    assert !Test(x, 56) && !Test(x, 57) && !Test(x, 58) && !Test(x, 59) && !Test(x, 60) && !Test(x, 61) && !Test(x, 62) && !Test(x, 63);
  }

  lemma WordsEqual(w: bv64, v: bv64)
    requires forall b: bv8 :: b < 64 ==> (Test(w, b) <==> Test(v, b))
    ensures w == v
  {
    var x, y := w & !v, v & !w;
    forall b: bv8 | b < 64 ensures !Test(x, b) { TestAndNot(w, v, b); }
    forall b: bv8 | b < 64 ensures !Test(y, b) { TestAndNot(v, w, b); }
    NoBitsIsZero(x);
    NoBitsIsZero(y);
  }

  /** Two sets with the same members are the same value: `==` compares alphabets. */
  lemma SameMembersSameSet(s: Set, t: Set)
    requires forall c :: Contains(s, c) <==> Contains(t, c)
    ensures s == t
  {
    forall i | 0 <= i < 4 ensures s[i] == t[i] {
      var base: bv8 := if i == 0 then 0 else if i == 1 then 64 else if i == 2 then 128 else 192;
      forall b: bv8 | b < 64 ensures Test(s[i], b) <==> Test(t[i], b) {
        Offset(base, b, i);
        assert Contains(s, base | b) <==> Contains(t, base | b);
      }
      WordsEqual(s[i], t[i]);
    }
  }

  lemma Offset(base: bv8, b: bv8, i: nat)
    requires b < 64 && i < 4 && base == (if i == 0 then 0 else if i == 1 then 64 else if i == 2 then 128 else 192)
    ensures Index(base | b) == i && Bit(base | b) == Bit(b)
  {
  }
}
