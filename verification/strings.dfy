/**
 The string operations the data layer leans on: how a numeric identifier is
 rendered as text (`toString()` of an integral number), how text is lowercased
 for the fee search (`toLowerCase()`, restricted to ASCII here) and what it means
 for one string to contain another (`includes`).
 */
module Strings {

  /** True for the ten ASCII decimal digits. */
  predicate IsDigit(c: char) {
    '0' <= c <= '9'
  }

  /** The digit character that stands for `d`. */
  function DigitChar(d: int): (c: char)
    requires 0 <= d < 10
    ensures IsDigit(c)
    ensures DigitValue(c) == d
  {
    (48 + d) as char
  }

  /** The number a digit character stands for. */
  function DigitValue(c: char): int {
    c as int - 48
  }

  /** Decimal rendering of a natural number, most significant digit first,
      without leading zeros. */
  function NatToStr(n: nat): (s: string)
    ensures 1 <= |s|
    ensures forall i :: 0 <= i < |s| ==> IsDigit(s[i])
    decreases n
  {
    if n < 10 then [DigitChar(n)] else NatToStr(n / 10) + [DigitChar(n % 10)]
  }

  /** Decimal rendering of an integer: a minus sign in front of the magnitude
      when it is negative. This is what `toString()` yields for a JavaScript
      number holding a safe integer (magnitude below 2^53). */
  function IntToStr(i: int): (s: string)
  {
    if i < 0 then "-" + NatToStr(-i) else NatToStr(i)
  }

  /** Reads a string of digits back as a number (the inverse of NatToStr). */
  function ParseDigits(s: string): nat
  {
    if |s| == 0 then 0
    else
      var d := DigitValue(s[|s| - 1]);
      ParseDigits(s[..|s| - 1]) * 10 + (if 0 <= d < 10 then d else 0)
  }

  /** Reads an optionally signed decimal string back as an integer. */
  function ParseInt(s: string): int
  {
    if 0 < |s| && s[0] == '-' then -(ParseDigits(s[1..]) as int) else ParseDigits(s)
  }

  lemma {:induction false} ParseNatToStr(n: nat)
    ensures ParseDigits(NatToStr(n)) == n
    decreases n
  {
    var s := NatToStr(n);
    if n >= 10 {
      ParseNatToStr(n / 10);
      assert s[..|s| - 1] == NatToStr(n / 10);
    }
  }

  /** Rendering an integer and reading it back gives the integer again. */
  lemma ParseIntToStr(i: int)
    ensures ParseInt(IntToStr(i)) == i
  {
    if i < 0 {
      ParseNatToStr(-i);
      assert IntToStr(i)[1..] == NatToStr(-i);
    } else {
      ParseNatToStr(i);
      assert IsDigit(NatToStr(i)[0]);
    }
  }

  /** Two integers have the same decimal rendering exactly when they are equal. */
  lemma IntToStrInjective(a: int, b: int)
    ensures IntToStr(a) == IntToStr(b) <==> a == b
  {
    if IntToStr(a) == IntToStr(b) {
      ParseIntToStr(a);
      ParseIntToStr(b);
    }
  }

  /** ASCII lowercasing of one character. */
  function LowerChar(c: char): char {
    if 'A' <= c <= 'Z' then (c as int + 32) as char else c
  }

  /** ASCII lowercasing of a string, character by character. */
  function Lower(s: string): (r: string)
    ensures |r| == |s|
    ensures forall i :: 0 <= i < |r| ==> !('A' <= r[i] <= 'Z')
    ensures forall i :: 0 <= i < |r| ==> r[i] == s[i] || ('A' <= s[i] <= 'Z' && r[i] as int == s[i] as int + 32)
  {
    seq(|s|, i requires 0 <= i < |s| => LowerChar(s[i]))
  }

  /** Lowercasing twice is lowercasing once. */
  lemma LowerIdempotent(s: string)
    ensures Lower(Lower(s)) == Lower(s)
  {
  }

  /** `needle` sits in `hay` starting at index `i`. */
  ghost predicate OccursAt(hay: string, needle: string, i: int) {
    0 <= i && i + |needle| <= |hay| && hay[i..i + |needle|] == needle
  }

  /** Substring test in the manner of `String.prototype.includes`: the empty
      needle is contained in every string. */
  predicate Contains(hay: string, needle: string)
    decreases |hay|
  {
    needle <= hay || (0 < |hay| && Contains(hay[1..], needle))
  }

  /** A substring found by Contains sits at some index of the hay. */
  lemma {:induction false} ContainedOccurs(hay: string, needle: string) returns (i: int)
    requires Contains(hay, needle)
    ensures OccursAt(hay, needle, i)
    decreases |hay|
  {
    if needle <= hay {
      i := 0;
    } else {
      var j := ContainedOccurs(hay[1..], needle);
      assert hay[1..][j..j + |needle|] == hay[j + 1..j + 1 + |needle|];
      i := j + 1;
    }
  }

  /** An occurrence at any index is found by Contains. */
  lemma {:induction false} OccurrenceContained(hay: string, needle: string, i: int)
    requires OccursAt(hay, needle, i)
    ensures Contains(hay, needle)
    decreases i
  {
    if 0 < i {
      assert hay[1..][i - 1..i - 1 + |needle|] == hay[i..i + |needle|];
      OccurrenceContained(hay[1..], needle, i - 1);
    }
  }

  /** Contains holds exactly when the needle occurs at some index of the hay. */
  lemma ContainsIsOccurrence(hay: string, needle: string)
    ensures Contains(hay, needle) <==> exists i :: OccursAt(hay, needle, i)
  {
    if Contains(hay, needle) {
      var i := ContainedOccurs(hay, needle);
    }
    if exists i :: OccursAt(hay, needle, i) {
      var i :| OccursAt(hay, needle, i);
      OccurrenceContained(hay, needle, i);
    }
  }

  /** Every string contains the empty string. */
  lemma ContainsEmpty(hay: string)
    ensures Contains(hay, "")
  {
  }
}
