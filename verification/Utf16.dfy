/** Text as JavaScript sees it: a sequence of 16-bit code units. */
module Utf16 {
  import opened Lines

  type Unit = c: int | 0 <= c < 0x10000
  type Text = seq<Unit>

  const NEWLINE: Unit := 10
  const REPLACEMENT: Unit := 0xFFFD

  function UnitOf(c: char): Unit {
    if c as int < 0x10000 then c as int else REPLACEMENT
  }

  /** The units of a literal. */
  function Units(s: string): (t: Text)
    ensures |t| == |s|
  {
    seq(|s|, i requires 0 <= i < |s| => UnitOf(s[i]))
  }

  /** White space and line terminators, as `\s` and `trim` know them. */
  predicate IsSpaceCode(c: int) {
    || 9 <= c <= 13 || c == 32 || c == 0xA0 || c == 0x1680 || 0x2000 <= c <= 0x200A
    || c == 0x2028 || c == 0x2029 || c == 0x202F || c == 0x205F || c == 0x3000 || c == 0xFEFF
  }

  predicate IsSpace(c: Unit) {
    IsSpaceCode(c)
  }

  /** What `.` does not match in a regular expression. */
  predicate IsTerminatorCode(c: int) {
    c == 10 || c == 13 || c == 0x2028 || c == 0x2029
  }

  /** The white space and line terminators of ECMA-262, sections 12.2 and 12.3, one by one. */
  lemma SpacesAre(c: int)
    ensures IsSpaceCode(c) <==> c in {
      9, 10, 11, 12, 13, 32, 0xA0, 0x1680, 0x2000, 0x2001, 0x2002, 0x2003, 0x2004, 0x2005, 0x2006, 0x2007, 0x2008, 0x2009, 0x200A,
      0x2028, 0x2029, 0x202F, 0x205F, 0x3000, 0xFEFF}
  {}

  // ----- surrogates -----

  predicate IsHigh(c: Unit) {
    0xD800 <= c <= 0xDBFF
  }

  predicate IsLow(c: Unit) {
    0xDC00 <= c <= 0xDFFF
  }

  /** A surrogate at `i` that is not half of a pair. */
  predicate IsLone(t: Text, i: nat)
    requires i < |t|
  {
    || (IsHigh(t[i]) && !(i + 1 < |t| && IsLow(t[i + 1])))
    || (IsLow(t[i]) && !(i > 0 && IsHigh(t[i - 1])))
  }

  predicate WellFormed(t: Text) {
    forall i :: 0 <= i < |t| ==> !IsLone(t, i)
  }

  /** Replaces each lone surrogate by U+FFFD. */
  function WellFormedText(t: Text): (r: Text)
    ensures |r| == |t|
  {
    seq(|t|, i requires 0 <= i < |t| => if IsLone(t, i) then REPLACEMENT else t[i])
  }

  lemma RepairedIsWellFormed(t: Text)
    ensures WellFormed(WellFormedText(t))
    ensures WellFormed(t) ==> WellFormedText(t) == t
  {
    var r := WellFormedText(t);
    forall i | 0 <= i < |r| ensures !IsLone(r, i) {
      if IsHigh(r[i]) {
        assert !IsLone(t, i) && IsLow(t[i + 1]) && !IsLone(t, i + 1);
      } else if IsLow(r[i]) {
        assert !IsLone(t, i) && IsHigh(t[i - 1]) && !IsLone(t, i - 1);
      }
    }
  }

  /** Only a half of a pair that stands without the other half is replaced. */
  lemma RepairIsMinimal(t: Text, i: nat)
    requires i < |t|
    ensures var paired := (i + 1 < |t| && 0xD800 <= t[i] <= 0xDBFF && 0xDC00 <= t[i + 1] <= 0xDFFF) || (i > 0 && 0xD800 <= t[i - 1] <= 0xDBFF && 0xDC00 <= t[i] <= 0xDFFF);
      WellFormedText(t)[i] == if 0xD800 <= t[i] <= 0xDFFF && !paired then 0xFFFD else t[i]
  {}

  /** A cut that does not separate the two halves of a pair. */
  predicate CutsNoPair(t: Text, i: nat)
    requires i <= |t|
  {
    !(0 < i < |t| && IsHigh(t[i - 1]) && IsLow(t[i]))
  }

  lemma SliceWellFormed(t: Text, i: nat, j: nat)
    requires i <= j <= |t| && WellFormed(t) && CutsNoPair(t, i) && CutsNoPair(t, j)
    ensures WellFormed(t[i..j])
  {
    var r := t[i..j];
    forall k | 0 <= k < |r| ensures !IsLone(r, k) {
      assert !IsLone(t, i + k);
    }
  }

  /** Repairing a concatenation: the parts do not see each other across an ordinary unit. */
  lemma RepairConcat(a: Text, b: Text)
    requires CutsNoPair(a + b, |a|)
    ensures WellFormedText(a + b) == WellFormedText(a) + WellFormedText(b)
  {
    var t := a + b;
    forall i | 0 <= i < |t| ensures WellFormedText(t)[i] == (WellFormedText(a) + WellFormedText(b))[i] {
      if i < |a| { assert IsLone(t, i) == IsLone(a, i); }
      else { assert IsLone(t, i) == IsLone(b, i - |a|); }
    }
  }
}
