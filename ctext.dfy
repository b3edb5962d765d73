// The C library routines the assembler relies on for text: the <ctype.h>
// classifiers in the "C" locale, reading a NUL-terminated string, and atoi.

module CText {

  /** isspace: blank, tab, newline, vertical tab, form feed, carriage return. */
  predicate IsSpace(c: char)
  {
    c == ' ' || ('\t' <= c <= '\r')
  }

  /** isdigit */
  predicate IsDigit(c: char)
  {
    '0' <= c <= '9'
  }

  /** isalpha */
  predicate IsAlpha(c: char)
  {
    ('a' <= c <= 'z') || ('A' <= c <= 'Z')
  }

  /** isalpha || isdigit */
  predicate IsAlnum(c: char)
  {
    IsAlpha(c) || IsDigit(c)
  }

  /**
   * The character a C pointer at offset i of the string sees: the string's own
   * character, or the terminating NUL once the offset reaches the end.
   */
  function At(s: string, i: int): char
  {
    if 0 <= i < |s| then s[i] else '\0'
  }

  /** The first offset at or after i that does not hold whitespace (or |s|). */
  function SkipSpaces(s: string, i: nat): (r: nat)
    requires i <= |s|
    ensures i <= r <= |s|
    ensures r < |s| ==> !IsSpace(s[r])
    decreases |s| - i
  {
    if i < |s| && IsSpace(s[i]) then SkipSpaces(s, i + 1) else i
  }

  /** Everything SkipSpaces skips is whitespace. */
  lemma {:induction false} SkipSpacesSkips(s: string, i: nat)
    requires i <= |s|
    ensures forall j :: i <= j < SkipSpaces(s, i) ==> IsSpace(s[j])
    decreases |s| - i
  {
    if i < |s| && IsSpace(s[i]) {
      SkipSpacesSkips(s, i + 1);
    }
  }

  /** The first offset at or after i that does not hold a digit (or |s|). */
  function SkipDigits(s: string, i: nat): (r: nat)
    requires i <= |s|
    ensures i <= r <= |s|
    ensures r < |s| ==> !IsDigit(s[r])
    decreases |s| - i
  {
    if i < |s| && IsDigit(s[i]) then SkipDigits(s, i + 1) else i
  }

  /** Everything SkipDigits skips is a digit. */
  lemma {:induction false} SkipDigitsSkips(s: string, i: nat)
    requires i <= |s|
    ensures forall j :: i <= j < SkipDigits(s, i) ==> IsDigit(s[j])
    decreases |s| - i
  {
    if i < |s| && IsDigit(s[i]) {
      SkipDigitsSkips(s, i + 1);
    }
  }

  predicate AllDigits(d: string)
  {
    forall i :: 0 <= i < |d| ==> IsDigit(d[i])
  }

  predicate AllSpaces(d: string)
  {
    forall i :: 0 <= i < |d| ==> IsSpace(d[i])
  }

  /** The decimal value of a string of digits, most significant digit first. */
  function DigitsValue(d: string): nat
    requires AllDigits(d)
  {
    if d == [] then 0
    else 10 * DigitsValue(d[..|d| - 1]) + ((d[|d| - 1] as int) - ('0' as int))
  }

  /** The offset where atoi's optional sign ends. */
  function SignEnd(s: string): (b: nat)
    ensures b <= |s|
  {
    var p := SkipSpaces(s, 0);
    if p < |s| && (s[p] == '+' || s[p] == '-') then p + 1 else p
  }

  /**
   * atoi: leading whitespace is skipped, one optional sign is read, then the
   * longest run of digits gives the value; anything after it is ignored.
   */
  function Atoi(s: string): int
  {
    var p := SkipSpaces(s, 0);
    var b := SignEnd(s);
    SkipDigitsSkips(s, b);
    var v: int := DigitsValue(s[b..SkipDigits(s, b)]);
    if p < |s| && s[p] == '-' then -v else v
  }
}
