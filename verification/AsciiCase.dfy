/** Comparing header names without regard to case: four bytes at a time against a byte table. */
module AsciiCase {

  type Bytes = seq<bv8>

  /** The upper-case table, entry by entry. */
  function Upper(b: bv8): bv8 { if 0x61 <= b <= 0x7a then b - 0x20 else b }

  /** Equality up to the case of ASCII letters. */
  predicate Same(a: Bytes, b: Bytes) {
    |a| == |b| && forall i | 0 <= i < |a| :: Upper(a[i]) == Upper(b[i])
  }

  // ---- four bytes in a word ----

  /** The word that four bytes in memory form on a little-endian machine. */
  function Load(b0: bv8, b1: bv8, b2: bv8, b3: bv8): bv32 {
    (b0 as bv32) | ((b1 as bv32) << 8) | ((b2 as bv32) << 16) | ((b3 as bv32) << 24)
  }

  /** Upper-cases four bytes at once, by sums that may only carry within their byte. */
  function ToUpper(eax: bv32): bv32 {
    var ebx := (0x7f7f7f7f & eax) + 0x05050505;
    var ebx := (0x7f7f7f7f & ebx) + 0x1a1a1a1a;
    var ebx := ((ebx & !eax) >> 2) & 0x20202020;
    eax - ebx
  }

  /** Byte k of a word. */
  function Lane0(w: bv32): bv32 { w & 0xff }
  function Lane1(w: bv32): bv32 { (w >> 8) & 0xff }
  function Lane2(w: bv32): bv32 { (w >> 16) & 0xff }
  function Lane3(w: bv32): bv32 { (w >> 24) & 0xff }

  function UpperLane(b: bv32): bv32 { if 0x61 <= b <= 0x7a then b - 0x20 else b }

  /** Every byte of the result is the upper case of that byte: no carry or borrow between them. */
  lemma ToUpperLanes(w: bv32)
    ensures Lane0(ToUpper(w)) == UpperLane(Lane0(w)) && Lane1(ToUpper(w)) == UpperLane(Lane1(w))
    ensures Lane2(ToUpper(w)) == UpperLane(Lane2(w)) && Lane3(ToUpper(w)) == UpperLane(Lane3(w))
  {
  }

  lemma LoadLanes(b0: bv8, b1: bv8, b2: bv8, b3: bv8)
    ensures var w := Load(b0, b1, b2, b3);
      Lane0(w) == b0 as bv32 && Lane1(w) == b1 as bv32 && Lane2(w) == b2 as bv32 && Lane3(w) == b3 as bv32
  {
  }

  lemma LanesDecide(v: bv32, w: bv32)
    ensures v == w <==> Lane0(v) == Lane0(w) && Lane1(v) == Lane1(w) && Lane2(v) == Lane2(w) && Lane3(v) == Lane3(w)
  {
  }

  lemma UpperWide(a: bv8, b: bv8)
    ensures UpperLane(a as bv32) == UpperLane(b as bv32) <==> Upper(a) == Upper(b)
  {
  }

  lemma WordsCompareBytes(a0: bv8, a1: bv8, a2: bv8, a3: bv8, b0: bv8, b1: bv8, b2: bv8, b3: bv8)
    ensures ToUpper(Load(a0, a1, a2, a3)) == ToUpper(Load(b0, b1, b2, b3)) <==>
      Upper(a0) == Upper(b0) && Upper(a1) == Upper(b1) && Upper(a2) == Upper(b2) && Upper(a3) == Upper(b3)
  {
    hide ToUpper, Load, Lane0, Lane1, Lane2, Lane3, UpperLane, Upper;
    var v, w := Load(a0, a1, a2, a3), Load(b0, b1, b2, b3);
    LoadLanes(a0, a1, a2, a3);
    LoadLanes(b0, b1, b2, b3);
    ToUpperLanes(v);
    ToUpperLanes(w);
    LanesDecide(ToUpper(v), ToUpper(w));
    UpperWide(a0, b0);
    UpperWide(a1, b1);
    UpperWide(a2, b2);
    UpperWide(a3, b3);
  }

  /** Comparing upper-cased words compares their bytes through the table. */
  lemma WordsCompare(a: Bytes, b: Bytes)
    requires |a| == 4 == |b|
    ensures ToUpper(Load(a[0], a[1], a[2], a[3])) == ToUpper(Load(b[0], b[1], b[2], b[3])) <==> Same(a, b)
  {
    hide ToUpper, Load, Upper;
    WordsCompareBytes(a[0], a[1], a[2], a[3], b[0], b[1], b[2], b[3]);
  }

  /** toupper_cmp: whole words first, then the up to three bytes left over. */
  method CompareUpper(a: Bytes, b: Bytes) returns (same: bool)
    requires |a| == |b|
    ensures same <==> Same(a, b)
  {
    hide ToUpper, Load, Upper;
    var imax := |a| / 4;
    var i := 0;
    while i != imax
      invariant i <= imax && Same(a[..4 * i], b[..4 * i])
      decreases imax - i
    {
      var k := 4 * i;
      WordsCompare(a[k..k + 4], b[k..k + 4]);
      if ToUpper(Load(a[k], a[k + 1], a[k + 2], a[k + 3])) != ToUpper(Load(b[k], b[k + 1], b[k + 2], b[k + 3])) {
        SamePieces(a, b, k, k + 4);
        return false;
      }
      SamePieces(a, b, k, k + 4);
      assert 4 * (i + 1) == k + 4;
      i := i + 1;
    }
    var j := imax * 4;
    while j < |a|
      invariant imax * 4 <= j <= |a| && Same(a[..j], b[..j])
    {
      if Upper(a[j]) != Upper(b[j]) {
        return false;
      }
      j := j + 1;
    }
    assert a[..j] == a && b[..j] == b;
    return true;
  }

  /** A prefix is the same if its two parts are, and a difference anywhere is a difference. */
  lemma SamePieces(a: Bytes, b: Bytes, i: nat, j: nat)
    requires |a| == |b| && i <= j <= |a|
    ensures Same(a[..j], b[..j]) <==> Same(a[..i], b[..i]) && Same(a[i..j], b[i..j])
    ensures Same(a, b) ==> Same(a[i..j], b[i..j])
  {
    hide Upper;
    if Same(a[..i], b[..i]) && Same(a[i..j], b[i..j]) {
      forall k | 0 <= k < j ensures Upper(a[..j][k]) == Upper(b[..j][k]) {
        if k >= i { assert a[..j][k] == a[i..j][k - i] && b[..j][k] == b[i..j][k - i]; }
        else { assert a[..j][k] == a[..i][k] && b[..j][k] == b[..i][k]; }
      }
    }
    if Same(a[..j], b[..j]) {
      forall k | 0 <= k < i ensures Upper(a[..i][k]) == Upper(b[..i][k]) { assert a[..i][k] == a[..j][k] && b[..i][k] == b[..j][k]; }
      forall k | 0 <= k < j - i ensures Upper(a[i..j][k]) == Upper(b[i..j][k]) {
        assert a[i..j][k] == a[..j][i + k] && b[i..j][k] == b[..j][i + k];
      }
    }
  }

  /** ascii_iequals */
  method EqualsIgnoreCase(a: Bytes, b: Bytes) returns (same: bool)
    ensures same <==> Same(a, b)
  {
    if |a| != |b| {
      return false;
    }
    same := CompareUpper(a, b);
  }

  /** It is an equivalence, and the one that comparing in lower case gives. */
  lemma SameIsEquivalence(a: Bytes, b: Bytes, c: Bytes)
    ensures Same(a, a)
    ensures Same(a, b) ==> Same(b, a)
    ensures Same(a, b) && Same(b, c) ==> Same(a, c)
    ensures Same(a, b) <==> |a| == |b| && forall i | 0 <= i < |a| :: Lower(a[i]) == Lower(b[i])
  {
    forall x: bv8, y: bv8 ensures Upper(x) == Upper(y) <==> Lower(x) == Lower(y) { CaseAgrees(x, y); }
    hide Upper, Lower;
  }

  function Lower(b: bv8): bv8 { if 0x41 <= b <= 0x5a then b + 0x20 else b }

  lemma CaseAgrees(a: bv8, b: bv8)
    ensures Upper(a) == Upper(b) <==> Lower(a) == Lower(b)
  {
  }
}
