/** Workout identifiers: `Workout._guid()` joins eight four-digit hexadecimal
    groups as 8-4-4-4-12. Each group comes from one call of `Math.random`;
    here the eight random draws are passed in, already scaled to
    `Math.floor(r * 0x10000)`, a 16-bit value. */
module Ids {

  type Word16 = n: nat | n < 0x10000

  /** The eight random 16-bit draws one `_guid()` call consumes. */
  type GuidSeed = s: seq<Word16> | |s| == 8 witness [0, 0, 0, 0, 0, 0, 0, 0]

  /** A lower-case hexadecimal digit, as `toString(16)` writes them. */
  predicate IsHexChar(c: char) {
    '0' <= c <= '9' || 'a' <= c <= 'f'
  }

  function HexDigit(d: nat): (c: char)
    requires d < 16
    ensures IsHexChar(c)
  {
    if d < 10 then (48 + d) as char else (87 + d) as char
  }

  function DigitValue(c: char): (d: nat)
    requires IsHexChar(c)
    ensures d < 16 && HexDigit(d) == c
  {
    if c <= '9' then c as int - 48 else c as int - 87
  }

  predicate AllHex(s: string) {
    forall i :: 0 <= i < |s| ==> IsHexChar(s[i])
  }

  /** `n.toString(16)`: lower-case hexadecimal, no leading zeros. */
  function HexString(n: nat): (r: string)
    ensures |r| > 0 && AllHex(r)
    decreases n
  {
    if n < 16 then [HexDigit(n)] else HexString(n / 16) + [HexDigit(n % 16)]
  }

  /** The number a string of hexadecimal digits denotes. */
  function HexValue(s: string): nat
    requires AllHex(s)
  {
    if s == [] then 0 else HexValue(s[..|s| - 1]) * 16 + DigitValue(s[|s| - 1])
  }

  /** `HexString` is inverted by `HexValue`. */
  lemma {:induction false} HexStringValue(n: nat)
    ensures HexValue(HexString(n)) == n
    decreases n
  {
    var r := HexString(n);
    if n >= 16 {
      HexStringValue(n / 16);
      assert r[..|r| - 1] == HexString(n / 16);
    }
  }

  /** `s4()`: `Math.floor((1 + r) * 0x10000).toString(16).substring(1)` */
  function S4(n: Word16): string {
    HexString(0x10000 + n)[1..]
  }

  /** The four hexadecimal digits of a 16-bit value, most significant first. */
  function Hex4(n: Word16): string {
    [HexDigit(n / 16 / 16 / 16), HexDigit(n / 16 / 16 % 16), HexDigit(n / 16 % 16), HexDigit(n % 16)]
  }

  lemma HexStringStep(n: nat)
    requires n >= 16
    ensures HexString(n) == HexString(n / 16) + [HexDigit(n % 16)]
  {
  }

  /** Euclidean division by 16 is determined by quotient and remainder. */
  lemma DivMod16(x: nat, q: nat, r: nat)
    requires x == 16 * q + r && r < 16
    ensures x / 16 == q && x % 16 == r
  {
  }

  /** Adding a multiple of 16 to `n` adds to its quotient and keeps its
      remainder. */
  lemma ShiftDiv16(c: nat, n: nat)
    ensures (16 * c + n) / 16 == c + n / 16 && (16 * c + n) % 16 == n % 16
  {
    DivMod16(16 * c + n, c + n / 16, n % 16);
  }

  /** Dropping the leading `1` of `(0x10000 + n).toString(16)` leaves exactly
      the four zero-padded digits of `n`. */
  lemma S4IsHex4(n: Word16)
    ensures HexString(0x10000 + n) == ['1'] + Hex4(n)
    ensures S4(n) == Hex4(n)
  {
    var n1 := n / 16;
    var n2 := n1 / 16;
    var n3 := n2 / 16;
    ShiftDiv16(0x1000, n);
    ShiftDiv16(0x100, n1);
    ShiftDiv16(0x10, n2);
    ShiftDiv16(1, n3);
    assert n3 < 16;
    HexStringStep(0x10 + n3);
    assert HexString(0x10 + n3) == ['1', HexDigit(n3)];
    HexStringStep(0x100 + n2);
    assert HexString(0x100 + n2) == ['1', HexDigit(n3), HexDigit(n2 % 16)];
    HexStringStep(0x1000 + n1);
    assert HexString(0x1000 + n1) == ['1', HexDigit(n3), HexDigit(n2 % 16), HexDigit(n1 % 16)];
    HexStringStep(0x10000 + n);
  }

  /** Every group is four hexadecimal digits that denote the random draw. */
  lemma S4Shape(n: Word16)
    ensures |S4(n)| == 4 && AllHex(S4(n))
    ensures HexValue(S4(n)) == n
  {
    S4IsHex4(n);
    var h := Hex4(n);
    var n1 := n / 16;
    var n2 := n1 / 16;
    var n3 := n2 / 16;
    assert h[..1] == [HexDigit(n3)];
    assert HexValue(h[..1]) == n3;
    assert h[..2][..1] == h[..1];
    assert HexValue(h[..2]) == n3 * 16 + n2 % 16 == n2;
    assert h[..3][..2] == h[..2];
    assert HexValue(h[..3]) == n2 * 16 + n1 % 16 == n1;
    assert h[..3] == h[..|h| - 1];
    assert HexValue(h) == n1 * 16 + n % 16 == n;
  }

  /** `_guid()` */
  function Guid(s: GuidSeed): string {
    S4(s[0]) + S4(s[1]) + "-" + S4(s[2]) + "-" + S4(s[3]) + "-" + S4(s[4]) + "-" + S4(s[5]) + S4(s[6]) + S4(s[7])
  }

  /** Positions of the four separators in an 8-4-4-4-12 identifier. */
  predicate IsDashPosition(k: int) {
    k == 8 || k == 13 || k == 18 || k == 23
  }

  /** The identifier has the 8-4-4-4-12 shape: 36 characters, dashes at the
      group boundaries, hexadecimal digits everywhere else. */
  lemma GuidShape(s: GuidSeed)
    ensures |Guid(s)| == 36
    ensures forall k :: 0 <= k < 36 && IsDashPosition(k) ==> Guid(s)[k] == '-'
    ensures forall k :: 0 <= k < 36 && !IsDashPosition(k) ==> IsHexChar(Guid(s)[k])
  {
    GuidGroups(s);
    var g := Guid(s);
    forall k | 0 <= k < 36 && !IsDashPosition(k) ensures IsHexChar(g[k]) {
      var (lo, i) :=
        if k < 4 then (0, 0) else if k < 8 then (4, 1) else if k < 13 then (9, 2)
        else if k < 18 then (14, 3) else if k < 23 then (19, 4) else if k < 28 then (24, 5)
        else if k < 32 then (28, 6) else (32, 7);
      S4Shape(s[i]);
      assert g[lo..lo + 4] == S4(s[i]);
      assert g[k] == g[lo..lo + 4][k - lo];
    }
  }

  /** The parts of a concatenation are its two slices at the seam. */
  lemma ConcatSlices(x: string, y: string)
    ensures (x + y)[..|x|] == x && (x + y)[|x|..] == y
  {
  }

  /** Where each group of `Guid(s)` sits. */
  lemma GuidGroups(s: GuidSeed)
    ensures |Guid(s)| == 36
    ensures Guid(s)[0..4] == S4(s[0]) && Guid(s)[4..8] == S4(s[1])
    ensures Guid(s)[9..13] == S4(s[2]) && Guid(s)[14..18] == S4(s[3])
    ensures Guid(s)[19..23] == S4(s[4]) && Guid(s)[24..28] == S4(s[5])
    ensures Guid(s)[28..32] == S4(s[6]) && Guid(s)[32..36] == S4(s[7])
    ensures Guid(s)[8] == '-' && Guid(s)[13] == '-' && Guid(s)[18] == '-' && Guid(s)[23] == '-'
  {
    S4Shape(s[0]); S4Shape(s[1]); S4Shape(s[2]); S4Shape(s[3]);
    S4Shape(s[4]); S4Shape(s[5]); S4Shape(s[6]); S4Shape(s[7]);
    var p1 := S4(s[0]) + S4(s[1]);
    var p3 := p1 + "-" + S4(s[2]);
    var p5 := p3 + "-" + S4(s[3]);
    var p7 := p5 + "-" + S4(s[4]);
    var p10 := p7 + "-" + S4(s[5]) + S4(s[6]);
    var g := p10 + S4(s[7]);
    assert g == Guid(s);
    ConcatSlices(p10, S4(s[7]));
    assert g[..32] == p10;
    assert g[28..32] == p10[28..32];
    assert g[24..28] == p10[24..28];
    assert g[23] == p10[23];
    assert p10[..23] == p7;
    assert g[19..23] == p7[19..23];
    assert g[18] == p7[18];
    assert p7[..18] == p5;
    assert g[14..18] == p5[14..18];
    assert g[13] == p5[13];
    assert p5[..13] == p3;
    assert g[9..13] == p3[9..13];
    assert g[8] == p3[8];
    assert p3[..8] == p1;
    assert g[0..4] == p1[0..4];
    assert g[4..8] == p1[4..8];
  }

  /** Distinct random draws give distinct identifiers: `_guid()` loses none
      of its 128 bits of randomness. */
  lemma GuidInjective(s: GuidSeed, t: GuidSeed)
    requires Guid(s) == Guid(t)
    ensures s == t
  {
    GuidGroups(s);
    GuidGroups(t);
    forall i | 0 <= i < 8 ensures s[i] == t[i] {
      S4Shape(s[i]);
      S4Shape(t[i]);
    }
  }
}
