/** The strings `Workout._setDescription` assembles: the capitalised type, the
    month name and the day of the month. */
module Text {

  /** The `months` table of `_setDescription`, indexed by `Date.getMonth()`. */
  const MonthNames: seq<string> := ["January", "February", "March", "April", "May", "June",
    "July", "August", "September", "October", "November", "December"]

  /** `String.prototype.toUpperCase` on one character, for the ASCII letters
      the workout type names are made of. */
  function Upper(c: char): (r: char)
    ensures 'a' <= c <= 'z' ==> r as int == c as int - 32 && 'A' <= r <= 'Z'
    ensures !('a' <= c <= 'z') ==> r == c
  {
    if 'a' <= c <= 'z' then (c as int - 32) as char else c
  }

  /** `s[0].toUpperCase() + s.slice(1)` */
  function Capitalize(s: string): (r: string)
    requires |s| > 0
    ensures |r| == |s| && r[0] == Upper(s[0]) && r[1..] == s[1..]
  {
    [Upper(s[0])] + s[1..]
  }

  /** A decimal digit character. */
  predicate IsDigit(c: char) {
    '0' <= c <= '9'
  }

  predicate AllDigits(s: string) {
    forall i :: 0 <= i < |s| ==> IsDigit(s[i])
  }

  /** How JavaScript writes a non-negative integer: decimal, no leading zeros. */
  function DecimalString(n: nat): (r: string)
    ensures |r| > 0 && AllDigits(r)
    ensures n > 0 ==> r[0] != '0'
    decreases n
  {
    if n < 10 then [(48 + n) as char] else DecimalString(n / 10) + [(48 + n % 10) as char]
  }

  /** The number a string of decimal digits denotes. */
  function DecimalValue(s: string): nat
    requires AllDigits(s)
  {
    if s == [] then 0 else DecimalValue(s[..|s| - 1]) * 10 + (s[|s| - 1] as int - 48)
  }

  /** Writing a day number and reading it back gives the day number. */
  lemma {:induction false} DecimalRoundTrip(n: nat)
    ensures DecimalValue(DecimalString(n)) == n
    decreases n
  {
    var r := DecimalString(n);
    if n >= 10 {
      DecimalRoundTrip(n / 10);
      assert r[..|r| - 1] == DecimalString(n / 10);
    }
  }

  /** No two numbers are written alike. */
  lemma DecimalInjective(m: nat, n: nat)
    requires DecimalString(m) == DecimalString(n)
    ensures m == n
  {
    DecimalRoundTrip(m);
    DecimalRoundTrip(n);
  }

  /** The label `_setDescription` builds: the capitalised type name, the word
      "on", the name of the 0-based month and the day of the month, separated
      by single spaces. */
  function Description(typeName: string, month: nat, day: nat): (r: string)
    requires |typeName| > 0 && month < 12
  {
    Capitalize(typeName) + " on " + MonthNames[month] + " " + DecimalString(day)
  }

  /** In a word without spaces followed by a space, the first space sits
      right after the word. */
  lemma FirstSpace(a: string, b: string)
    requires ' ' !in a
    ensures (a + " " + b)[|a|] == ' '
    ensures forall k :: 0 <= k < |a| ==> (a + " " + b)[k] != ' '
  {
    forall k | 0 <= k < |a| ensures (a + " " + b)[k] != ' ' {
      assert (a + " " + b)[k] == a[k];
    }
  }

  /** Splitting at the first space: a word without spaces followed by a
      space is determined by the string it starts. */
  lemma SplitAtSpace(a: string, b: string, c: string, d: string)
    requires ' ' !in a && ' ' !in c
    requires a + " " + b == c + " " + d
    ensures a == c && b == d
  {
    FirstSpace(a, b);
    FirstSpace(c, d);
    assert |a| == |c|;
    assert a == (a + " " + b)[..|a|];
    assert c == (c + " " + d)[..|c|];
    assert b == (a + " " + b)[|a| + 1..];
    assert d == (c + " " + d)[|c| + 1..];
  }

  /** The twelve month names are twelve different words without spaces. */
  lemma MonthNamesDistinct(i: nat, j: nat)
    requires i < 12 && j < 12
    ensures ' ' !in MonthNames[i]
    ensures MonthNames[i] == MonthNames[j] ==> i == j
  {
  }

  /** The description is the fixed prefix for its type followed by the
      part naming the date. */
  lemma DescriptionSplit(typeName: string, m: nat, d: nat)
    requires |typeName| > 0 && m < 12
    ensures Description(typeName, m, d) ==
      (Capitalize(typeName) + " on ") + (MonthNames[m] + " " + DecimalString(d))
  {
  }

  lemma DropPrefix(p: string, x: string, y: string)
    requires p + x == p + y
    ensures x == y
  {
    assert x == (p + x)[|p|..];
    assert y == (p + y)[|p|..];
  }

  /** A description names its month and day unambiguously: two descriptions
      of the same type agree exactly when their months and days agree. */
  lemma DescriptionDeterminesDate(typeName: string, m1: nat, d1: nat, m2: nat, d2: nat)
    requires |typeName| > 0 && m1 < 12 && m2 < 12
    ensures Description(typeName, m1, d1) == Description(typeName, m2, d2) <==> m1 == m2 && d1 == d2
  {
    if Description(typeName, m1, d1) == Description(typeName, m2, d2) {
      DescriptionSplit(typeName, m1, d1);
      DescriptionSplit(typeName, m2, d2);
      DropPrefix(Capitalize(typeName) + " on ",
        MonthNames[m1] + " " + DecimalString(d1), MonthNames[m2] + " " + DecimalString(d2));
      MonthNamesDistinct(m1, m2);
      MonthNamesDistinct(m2, m1);
      SplitAtSpace(MonthNames[m1], DecimalString(d1), MonthNames[m2], DecimalString(d2));
      DecimalInjective(d1, d2);
    }
  }
}
