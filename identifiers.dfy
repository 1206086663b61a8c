/** The account identifier shape, the regular expression `/^a\d{3}$/`
    used for the path parameter of every `/accounts/:id` route and for a
    replacement id in an update: the letter `a` followed by exactly three
    ASCII decimal digits, anchored at both ends. */
module Identifiers {

  /** `\d` without the `u` flag: the ASCII digits only. */
  predicate IsDigit(c: char)
  {
    '0' <= c <= '9'
  }

  /** `/^a\d{3}$/.test(s)` */
  predicate IsValidId(s: string)
  {
    |s| == 4 && s[0] == 'a' && IsDigit(s[1]) && IsDigit(s[2]) && IsDigit(s[3])
  }

  function DigitChar(d: nat): (c: char)
    requires d < 10
    ensures IsDigit(c) && c as int - '0' as int == d
  {
    ('0' as int + d) as char
  }

  function DigitValue(c: char): (d: nat)
    requires IsDigit(c)
    ensures d < 10 && DigitChar(d) == c
  {
    c as int - '0' as int
  }

  /** The identifier of account number n, zero-padded: `IdOf(7) == "a007"`.
      This is an independent description of the valid identifiers: they
      are exactly the codes of the numbers 0 to 999. */
  function IdOf(n: nat): (s: string)
    requires n < 1000
    ensures |s| == 4 && s[0] == 'a'
  {
    ['a', DigitChar(n / 100), DigitChar(n / 10 % 10), DigitChar(n % 10)]
  }

  /** The number an identifier encodes: `IdNumber("a042") == 42`. */
  function IdNumber(s: string): (n: nat)
    requires IsValidId(s)
    ensures n < 1000
  {
    100 * DigitValue(s[1]) + 10 * DigitValue(s[2]) + DigitValue(s[3])
  }

  lemma IdOfIsValid(n: nat)
    requires n < 1000
    ensures IsValidId(IdOf(n))
    ensures IdNumber(IdOf(n)) == n
  {
    var s := IdOf(n);
    assert DigitValue(s[1]) == n / 100;
    assert DigitValue(s[2]) == n / 10 % 10;
    assert DigitValue(s[3]) == n % 10;
  }

  lemma IdNumberRoundTrip(s: string)
    requires IsValidId(s)
    ensures IdOf(IdNumber(s)) == s
  {
    var a, b, c := DigitValue(s[1]), DigitValue(s[2]), DigitValue(s[3]);
    var n := 100 * a + 10 * b + c;
    assert n / 100 == a;
    assert n / 10 == 10 * a + b;
    assert n / 10 % 10 == b;
    assert n % 10 == c;
  }

  /** The regular expression accepts a string exactly when it is the code
      of some number below 1000. */
  lemma ValidIdIffCode(s: string)
    ensures IsValidId(s) <==> exists n: nat :: n < 1000 && s == IdOf(n)
  {
    if IsValidId(s) {
      IdNumberRoundTrip(s);
    }
    if n: nat :| n < 1000 && s == IdOf(n) {
      IdOfIsValid(n);
    }
  }

  /** Distinct account numbers have distinct identifiers. */
  lemma IdOfInjective(m: nat, n: nat)
    requires m < 1000 && n < 1000
    ensures IdOf(m) == IdOf(n) <==> m == n
  {
    if IdOf(m) == IdOf(n) {
      IdOfIsValid(m);
      IdOfIsValid(n);
    }
  }

  /** The three identifiers the route's error message cites are accepted;
      too short, too long, wrong or upper-case letter, empty, and padded
      strings are rejected. */
  lemma IdExamples()
    ensures IsValidId("a001") && IsValidId("a123") && IsValidId("a999")
    ensures !IsValidId("a12") && !IsValidId("a1234") && !IsValidId("b001")
    ensures !IsValidId("") && !IsValidId(" a001") && !IsValidId("a001\n") && !IsValidId("A001")
  {
  }
}
