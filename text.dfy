/**
 * The string handling the filter-text parsers share: Rust's
 * `to_ascii_lowercase()` followed by `replace(" ", "")`, and the decimal
 * rendering `{}` gives an unsigned integer in the error messages.
 */
module Text {

  /** `char::to_ascii_lowercase`: only 'A'..'Z' change. */
  function AsciiLower(c: char): char {
    if 'A' <= c <= 'Z' then (c as int + 32) as char else c
  }

  function ToAsciiLowercase(s: string): (r: string)
    ensures |r| == |s|
    ensures forall i :: 0 <= i < |s| ==> r[i] == AsciiLower(s[i])
  {
    if s == [] then [] else [AsciiLower(s[0])] + ToAsciiLowercase(s[1..])
  }

  /** `str::replace(" ", "")`. */
  function RemoveSpaces(s: string): (r: string)
    ensures |r| <= |s|
    ensures forall c :: c in r <==> c in s && c != ' '
  {
    if s == [] then [] else if s[0] == ' ' then RemoveSpaces(s[1..]) else [s[0]] + RemoveSpaces(s[1..])
  }

  /** A single character is dropped exactly when it is a space. */
  lemma RemoveSpacesChar(c: char)
    ensures RemoveSpaces([c]) == if c == ' ' then [] else [c]
  {
    assert [c][1..] == [];
  }

  /**
   * Removing spaces works piece by piece, so every other character is kept
   * in its place and with its count.
   */
  lemma {:induction false} RemoveSpacesAppend(a: string, b: string)
    ensures RemoveSpaces(a + b) == RemoveSpaces(a) + RemoveSpaces(b)
  {
    if a != [] {
      assert (a + b)[0] == a[0];
      assert (a + b)[1..] == a[1..] + b;
      RemoveSpacesAppend(a[1..], b);
    } else {
      assert a + b == b;
    }
  }

  /** The normal form every filter string is matched in. */
  function Normalize(s: string): string {
    RemoveSpaces(ToAsciiLowercase(s))
  }

  predicate IsNormal(s: string) {
    forall c :: c in s ==> c != ' ' && !('A' <= c <= 'Z')
  }

  lemma {:induction false} RemoveSpacesOfSpaceless(s: string)
    requires forall c :: c in s ==> c != ' '
    ensures RemoveSpaces(s) == s
  {
    if s != [] {
      assert s[0] in s;
      assert forall c :: c in s[1..] ==> c in s;
      RemoveSpacesOfSpaceless(s[1..]);
    }
  }

  lemma {:induction false} LowercaseOfLowercase(s: string)
    requires forall c :: c in s ==> !('A' <= c <= 'Z')
    ensures ToAsciiLowercase(s) == s
  {
    if s != [] {
      assert s[0] in s;
      assert forall c :: c in s[1..] ==> c in s;
      LowercaseOfLowercase(s[1..]);
    }
  }

  /** The normal form has no spaces and no upper-case ASCII letters, and normalising it again changes nothing. */
  lemma NormalizeIsNormal(s: string)
    ensures IsNormal(Normalize(s))
    ensures Normalize(Normalize(s)) == Normalize(s)
  {
    var l := ToAsciiLowercase(s);
    forall c | c in l ensures !('A' <= c <= 'Z') {
      var i :| 0 <= i < |l| && l[i] == c;
    }
    var n := Normalize(s);
    assert IsNormal(n);
    LowercaseOfLowercase(n);
    RemoveSpacesOfSpaceless(n);
  }

  /** Strings in normal form are their own normal form. */
  lemma NormalizeOfNormal(s: string)
    requires IsNormal(s)
    ensures Normalize(s) == s
  {
    LowercaseOfLowercase(s);
    RemoveSpacesOfSpaceless(s);
  }

  lemma {:induction false} NormalizeAppend(a: string, b: string)
    ensures Normalize(a + b) == Normalize(a) + Normalize(b)
  {
    if a == [] {
      assert a + b == b;
    } else {
      assert (a + b)[1..] == a[1..] + b;
      NormalizeAppend(a[1..], b);
    }
  }

  /** Two words joined by a space normalise to the two normal forms run together. */
  lemma NormalizeJoin(a: string, b: string)
    ensures Normalize(a + " " + b) == Normalize(a) + Normalize(b)
  {
    NormalizeAppend(a + " ", b);
    NormalizeAppend(a, " ");
    assert Normalize(" ") == "";
  }

  /** A word without spaces normalises to its lower-case letters, one for one. */
  lemma NormalizeWord(w: string, l: string)
    requires |w| == |l|
    requires forall i :: 0 <= i < |w| ==> w[i] != ' ' && AsciiLower(w[i]) == l[i]
    ensures Normalize(w) == l
  {
    assert ToAsciiLowercase(w) == l;
    forall c | c in l ensures c != ' ' {
      var i :| 0 <= i < |l| && l[i] == c;
    }
    RemoveSpacesOfSpaceless(l);
  }

  function DigitChar(d: nat): (c: char)
    requires d < 10
    ensures '0' <= c <= '9'
  {
    ('0' as int + d) as char
  }

  function DigitValue(c: char): (d: nat)
    requires '0' <= c <= '9'
    ensures d < 10
  {
    c as int - '0' as int
  }

  predicate IsDigits(s: string) {
    forall i :: 0 <= i < |s| ==> '0' <= s[i] <= '9'
  }

  /** Rust's `{}` for an unsigned integer: decimal, no sign, no leading zeros. */
  function Decimal(n: nat): (s: string)
    ensures |s| > 0 && IsDigits(s)
    decreases n
  {
    if n < 10 then [DigitChar(n)] else Decimal(n / 10) + [DigitChar(n % 10)]
  }

  /** The number a string of decimal digits denotes. */
  function DecimalValue(s: string): nat
    requires IsDigits(s)
  {
    if s == [] then 0 else 10 * DecimalValue(s[..|s| - 1]) + DigitValue(s[|s| - 1])
  }

  /** Reading back what `Decimal` wrote gives the number, and there is no leading zero. */
  lemma {:induction false} DecimalRoundTrip(n: nat)
    ensures DecimalValue(Decimal(n)) == n
    ensures Decimal(n)[0] == '0' ==> n == 0
    decreases n
  {
    var s := Decimal(n);
    if n >= 10 {
      DecimalRoundTrip(n / 10);
      assert s[..|s| - 1] == Decimal(n / 10);
    }
  }
}
