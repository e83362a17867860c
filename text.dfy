/**
 * The small part of Go's strings, strconv and fmt packages the sexagesimal
 * codec relies on: splitting on a separator, two-digit zero-padded integer
 * formatting, and a decimal-number parser.
 */
module Text {
  import opened Wrappers
  import opened Constants

  /** strings.Split: the pieces between separators; an empty string gives one empty piece. */
  function Split(s: string, sep: char): (r: seq<string>)
    ensures |r| >= 1
    ensures forall i :: 0 <= i < |r| ==> sep !in r[i]
    ensures sep !in s ==> r == [s]
  {
    if s == [] then [[]]
    else
      var rest := Split(s[1..], sep);
      if s[0] == sep then [[]] + rest
      else
        assert sep !in s ==> s == [s[0]] + s[1..];
        [[s[0]] + rest[0]] + rest[1..]
  }

  /** strings.Join: glues pieces back with the separator. */
  function Join(pieces: seq<string>, sep: char): string
  {
    if |pieces| == 0 then []
    else if |pieces| == 1 then pieces[0]
    else pieces[0] + [sep] + Join(pieces[1..], sep)
  }

  /** Splitting and joining again gives back the string. */
  lemma {:induction false} JoinSplit(s: string, sep: char)
    ensures Join(Split(s, sep), sep) == s
  {
    if s != [] {
      JoinSplit(s[1..], sep);
      var rest := Split(s[1..], sep);
      if s[0] == sep {
        assert Split(s, sep) == [[]] + rest;
        assert s == [sep] + s[1..];
      } else {
        assert Split(s, sep)[1..] == rest[1..];
        if |rest| == 1 {
          assert s == [s[0]] + rest[0];
        } else {
          assert rest == [rest[0]] + rest[1..];
          assert s == [s[0]] + (rest[0] + [sep] + Join(rest[1..], sep));
        }
      }
    }
  }

  /** A piece without the separator, then the separator, starts a new piece. */
  lemma {:induction false} SplitPrefix(a: string, rest: string, sep: char)
    requires sep !in a
    ensures Split(a + [sep] + rest, sep) == [a] + Split(rest, sep)
  {
    if a != [] {
      assert (a + [sep] + rest)[1..] == a[1..] + [sep] + rest;
      SplitPrefix(a[1..], rest, sep);
      assert [a[0]] + a[1..] == a;
    } else {
      assert a + [sep] + rest == [sep] + rest;
    }
  }

  /** Three separator-free pieces joined by separators split back into those three pieces. */
  lemma SplitThree(a: string, b: string, c: string, sep: char)
    requires sep !in a && sep !in b && sep !in c
    ensures Split(a + [sep] + b + [sep] + c, sep) == [a, b, c]
  {
    SplitPrefix(b, c, sep);
    assert a + [sep] + b + [sep] + c == a + [sep] + (b + [sep] + c);
    SplitPrefix(a, b + [sep] + c, sep);
  }

  predicate IsDigit(c: char) { '0' <= c <= '9' }

  predicate AllDigits(s: string) { forall i :: 0 <= i < |s| ==> IsDigit(s[i]) }

  function DigitValue(c: char): nat
    requires IsDigit(c)
  {
    (c as int - '0' as int) as nat
  }

  function DigitChar(d: nat): (c: char)
    requires d < 10
    ensures IsDigit(c) && DigitValue(c) == d
  {
    ('0' as int + d) as char
  }

  /** The decimal digits of n, most significant first, without leading zeros. */
  function Digits(n: nat): (s: string)
    ensures |s| >= 1 && AllDigits(s)
  {
    if n < 10 then [DigitChar(n)] else Digits(n / 10) + [DigitChar(n % 10)]
  }

  /** fmt's %.2d for a non-negative integer: at least two digits, zero-padded. */
  function Pad2(n: nat): (s: string)
    ensures |s| >= 2 && AllDigits(s)
    ensures n < 100 ==> |s| == 2
  {
    if n < 10 then "0" + Digits(n)
    else
      assert n < 100 ==> |Digits(n / 10)| == 1;
      Digits(n)
  }

  /** The value of a digit string, most significant digit first. */
  function ParseNat(s: string): nat
    requires AllDigits(s)
  {
    if s == [] then 0 else ParseNat(s[..|s| - 1]) * 10 + DigitValue(s[|s| - 1])
  }

  lemma {:induction false} ParseNatDigits(n: nat)
    ensures ParseNat(Digits(n)) == n
  {
    if n >= 10 {
      var s := Digits(n);
      assert s[..|s| - 1] == Digits(n / 10);
      ParseNatDigits(n / 10);
    }
  }

  /** Leading zeros do not change a digit string's value. */
  lemma {:induction false} ParseNatLeadingZero(s: string)
    requires AllDigits(s)
    ensures ParseNat("0" + s) == ParseNat(s)
  {
    if s != [] {
      assert ("0" + s)[..|"0" + s| - 1] == "0" + s[..|s| - 1];
      ParseNatLeadingZero(s[..|s| - 1]);
    }
  }

  lemma Pad2Value(n: nat)
    ensures ParseNat(Pad2(n)) == n
  {
    ParseNatDigits(n);
    if n < 10 {
      ParseNatLeadingZero(Digits(n));
    }
  }

  /** The position of the first c in s, or |s| when there is none. */
  function IndexOf(s: string, c: char): (i: nat)
    ensures i <= |s|
    ensures i < |s| ==> s[i] == c
    ensures forall j :: 0 <= j < i ==> s[j] != c
  {
    if s == [] then 0 else if s[0] == c then 0 else 1 + IndexOf(s[1..], c)
  }

  /** Unsigned decimal: digits, optionally followed by a point and more digits. */
  function ParseUnsignedDecimal(s: string): (r: Option<real>)
    ensures r.Some? ==> r.value >= 0.0
  {
    var i := IndexOf(s, '.');
    var whole, frac := s[..i], if i < |s| then s[i + 1..] else [];
    if whole == [] || !AllDigits(whole) then None
    else if i == |s| then Some(ParseNat(whole) as real)
    else if frac == [] || !AllDigits(frac) then None
    else Some(ParseNat(whole) as real + FracValue(frac))
  }

  /** The value of the digits after a decimal point: the first in tenths, the next in hundredths, and so on. */
  function FracValue(s: string): (r: real)
    requires AllDigits(s)
    ensures 0.0 <= r < 1.0
  {
    if s == [] then 0.0 else (DigitValue(s[0]) as real + FracValue(s[1..])) / 10.0
  }

  /** Four decimals are worth their digit string over 10000. */
  lemma FracFour(f: string)
    requires |f| == 4 && AllDigits(f)
    ensures FracValue(f) == ParseNat(f) as real / 10000.0
  {
    var d0, d1, d2, d3 := DigitValue(f[0]), DigitValue(f[1]), DigitValue(f[2]), DigitValue(f[3]);
    assert f[1..][1..][1..][1..] == [];
    assert FracValue(f[3..]) == d3 as real / 10.0 by {
      assert f[3..][1..] == [];
    }
    assert f[1..][1..][1..] == f[3..] && f[1..][1..] == f[2..];
    assert FracValue(f[2..]) == (d2 as real + d3 as real / 10.0) / 10.0;
    assert FracValue(f[1..]) == (d1 as real + FracValue(f[2..])) / 10.0;
    assert FracValue(f) == (d0 as real + FracValue(f[1..])) / 10.0;
    assert f[..3][..2][..1][..0] == [];
    assert f[..3][..2] == f[..2] && f[..3][..2][..1] == f[..1];
    assert ParseNat(f[..1]) == d0;
    assert ParseNat(f[..2]) == d0 * 10 + d1;
    assert ParseNat(f[..3]) == (d0 * 10 + d1) * 10 + d2;
    assert ParseNat(f) == ((d0 * 10 + d1) * 10 + d2) * 10 + d3;
  }

  /**
   * A decimal instance of strconv.ParseFloat: an optional sign, digits, and
   * an optional fraction. Exponents, hexadecimal forms, underscores and
   * the infinities Go also accepts are not part of this grammar.
   */
  function ParseDecimal(s: string): (r: Option<real>)
    ensures s != [] && IsDigit(s[0]) ==> r == ParseUnsignedDecimal(s)
  {
    if s != [] && (s[0] == '+' || s[0] == '-') then
      match ParseUnsignedDecimal(s[1..])
      case None => None
      case Some(v) => Some(if s[0] == '-' then -v else v)
    else ParseUnsignedDecimal(s)
  }

  /** The parser reads back every zero-padded two-digit field. */
  lemma ParseDecimalPad2(n: nat)
    ensures ParseDecimal(Pad2(n)) == Some(n as real)
  {
    var s := Pad2(n);
    Pad2Value(n);
    assert forall j :: 0 <= j < |s| ==> s[j] != '.';
    assert IndexOf(s, '.') == |s|;
    assert s[..|s|] == s;
  }

  // fmt's %07.4f: four decimals, rounded half to even, zero-padded to width 7.

  /** The integer nearest t; a tie goes to the even neighbour. */
  function RoundHalfEven(t: real): (n: int)
    ensures -0.5 <= n as real - t <= 0.5
    ensures (n as real - t == 0.5 || t - n as real == 0.5) ==> n % 2 == 0
    ensures t == t.Floor as real ==> n as real == t
    ensures t >= 0.0 ==> n >= 0
  {
    var f := t.Floor;
    var r := t - f as real;
    if r > 0.5 || (r == 0.5 && f % 2 != 0) then f + 1 else f
  }

  /** A value with at most four decimals. */
  predicate FourPlaces(v: real)
  {
    v * 10000.0 == (v * 10000.0).Floor as real
  }

  /** v rounded to four decimals, as %.4f rounds it. */
  function Round4(v: real): (r: real)
    ensures -0.00005 <= r - v <= 0.00005
    ensures FourPlaces(r)
    ensures FourPlaces(v) ==> r == v
    ensures v >= 0.0 ==> r >= 0.0
  {
    var n := RoundHalfEven(v * 10000.0);
    TenThousandthsOf(v, n);
    n as real / 10000.0
  }

  /** An integer within half of v * 10000, over 10000, is within 0.00005 of v and has four decimals. */
  lemma TenThousandthsOf(v: real, n: int)
    requires -0.5 <= n as real - v * 10000.0 <= 0.5
    requires FourPlaces(v) ==> n as real == v * 10000.0
    ensures var r := n as real / 10000.0;
      -0.00005 <= r - v <= 0.00005 && FourPlaces(r) && (FourPlaces(v) ==> r == v)
      && (v >= 0.0 ==> n >= 0 ==> r >= 0.0)
  {
    var r := n as real / 10000.0;
    assert r * 10000.0 == n as real;
    assert (r * 10000.0).Floor == n;
  }

  /** Four digits, zero-padded. */
  function Pad4(k: nat): (s: string)
    requires k < 10000
    ensures |s| == 4 && AllDigits(s)
  {
    Pad2(k / 100) + Pad2(k % 100)
  }

  /**
   * fmt's %07.4f: the whole part, a point and four decimals of the
   * rounded magnitude; a non-negative value has its whole part padded to
   * two digits, a negative one has the sign in front instead.
   */
  function Fixed4(v: real): (s: string)
    ensures |s| >= 7
    ensures ':' !in s
    ensures s[0] == '-' <==> v < 0.0
  {
    var n := RoundHalfEven((if v < 0.0 then -v else v) * 10000.0);
    FixedText(v < 0.0, n / 10000, n % 10000)
  }

  /** The text of q and k ten-thousandths, with a sign in front when neg. */
  function FixedText(neg: bool, q: nat, k: nat): (s: string)
    requires k < 10000
    ensures |s| >= 7
    ensures ':' !in s
    ensures s[0] == '-' <==> neg
  {
    var u := (if neg then Digits(q) else Pad2(q)) + "." + Pad4(k);
    assert forall i :: 0 <= i < |u| ==> u[i] == '.' || IsDigit(u[i]);
    if neg then "-" + u else u
  }

  /** Two more digits on the right multiply the value by a hundred. */
  lemma ParseNatTwoMore(a: string, b: string)
    requires AllDigits(a) && AllDigits(b) && |b| == 2
    ensures AllDigits(a + b)
    ensures ParseNat(a + b) == ParseNat(a) * 100 + ParseNat(b)
  {
    var ab, a0 := a + b, a + [b[0]];
    assert ab[..|ab| - 1] == a0;
    assert ParseNat(ab) == ParseNat(a0) * 10 + DigitValue(b[1]);
    assert a0[..|a0| - 1] == a;
    assert ParseNat(a0) == ParseNat(a) * 10 + DigitValue(b[0]);
    assert b[..1] == [b[0]];
    assert ParseNat(b) == ParseNat([b[0]]) * 10 + DigitValue(b[1]);
    assert [b[0]][..0] == [];
    assert ParseNat([b[0]]) == DigitValue(b[0]);
  }

  lemma Pad4Value(k: nat)
    requires k < 10000
    ensures ParseNat(Pad4(k)) == k
  {
    ParseNatTwoMore(Pad2(k / 100), Pad2(k % 100));
    Pad2Value(k / 100);
    Pad2Value(k % 100);
  }

  /** Whole digits, a point and four decimals read back as whole plus decimals over 10000. */
  lemma ParsePointed(w: string, f: string)
    requires w != [] && AllDigits(w) && AllDigits(f) && |f| == 4
    ensures ParseUnsignedDecimal(w + "." + f)
      == Some(ParseNat(w) as real + ParseNat(f) as real / 10000.0)
  {
    var s := w + "." + f;
    IndexAfterDigits(w, f);
    assert s[..|w|] == w;
    assert s[|w| + 1..] == f;
    UnsignedDecimalPointed(s, |w|);
    FracFour(f);
  }

  /** ParseUnsignedDecimal on a text with a point at i and digits on both sides. */
  lemma UnsignedDecimalPointed(s: string, i: nat)
    requires i < |s| && IndexOf(s, '.') == i
    requires s[..i] != [] && AllDigits(s[..i]) && s[i + 1..] != [] && AllDigits(s[i + 1..])
    ensures ParseUnsignedDecimal(s) == Some(ParseNat(s[..i]) as real + FracValue(s[i + 1..]))
  {
  }

  /** The first point after a run of digits is right after them. */
  lemma {:induction false} IndexAfterDigits(w: string, rest: string)
    requires AllDigits(w)
    ensures IndexOf(w + "." + rest, '.') == |w|
  {
    if w != [] {
      assert (w + "." + rest)[1..] == w[1..] + "." + rest;
      IndexAfterDigits(w[1..], rest);
    }
  }

  /** A whole part worth q and four decimals worth k read back as q + k / 10000. */
  lemma ParseFixed(w: string, f: string, q: nat, k: nat)
    requires w != [] && AllDigits(w) && ParseNat(w) == q
    requires |f| == 4 && AllDigits(f) && ParseNat(f) == k
    ensures ParseUnsignedDecimal(w + "." + f) == Some(q as real + k as real / 10000.0)
  {
    ParsePointed(w, f);
  }

  lemma TenThousandths(n: nat, q: nat, k: nat)
    requires q == n / 10000 && k == n % 10000
    ensures n as real / 10000.0 == q as real + k as real / 10000.0
  {
    assert n == q * 10000 + k;
    assert n as real == q as real * 10000.0 + k as real;
  }

  /** The %07.4f text of a non-negative value reads back as the value rounded to four decimals. */
  lemma Fixed4ReadsBack(v: real)
    requires v >= 0.0
    ensures ParseDecimal(Fixed4(v)) == Some(Round4(v))
  {
    var n := RoundHalfEven(v * 10000.0);
    Fixed4Parts(v, v, n);
    var q, k := n / 10000, n % 10000;
    var t, r := FixedText(false, q, k), q as real + k as real / 10000.0;
    FixedTextReadsBack(false, q, k);
    assert ParseDecimal(t) == Some(r);
    assert Fixed4(v) == t;
    assert Round4(v) == r;
  }

  /** The %07.4f text of a negative value reads back as minus its magnitude rounded to four decimals. */
  lemma NegativeFixed4ReadsBack(v: real)
    requires v < 0.0
    ensures ParseDecimal(Fixed4(v)) == Some(-Round4(-v))
  {
    var n := RoundHalfEven(-v * 10000.0);
    Fixed4Parts(v, -v, n);
    var q, k := n / 10000, n % 10000;
    var t, r := FixedText(true, q, k), q as real + k as real / 10000.0;
    FixedTextReadsBack(true, q, k);
    assert ParseDecimal(t) == Some(-r);
    assert Fixed4(v) == t;
    assert Round4(-v) == r;
  }

  /** The text %07.4f prints is that of the rounded magnitude's whole part and four decimals. */
  lemma Fixed4Parts(v: real, m: real, n: int)
    requires m == (if v < 0.0 then -v else v) && n == RoundHalfEven(m * 10000.0)
    ensures n >= 0
    ensures Fixed4(v) == FixedText(v < 0.0, n / 10000, n % 10000)
    ensures Round4(m) == (n / 10000) as real + (n % 10000) as real / 10000.0
  {
    TenThousandths(n, n / 10000, n % 10000);
  }

  /** q and k ten-thousandths read back as q + k / 10000, negated under a sign. */
  lemma FixedTextReadsBack(neg: bool, q: nat, k: nat)
    requires k < 10000
    ensures var r := q as real + k as real / 10000.0;
      ParseDecimal(FixedText(neg, q, k)) == Some(if neg then -r else r)
  {
    var f := Pad4(k);
    Pad4Value(k);
    var r := q as real + k as real / 10000.0;
    if neg {
      var w := Digits(q);
      ParseNatDigits(q);
      ParseFixed(w, f, q, k);
      assert FixedText(neg, q, k) == "-" + (w + "." + f);
      NegatedRead(w + "." + f, r);
    } else {
      var w := Pad2(q);
      Pad2Value(q);
      ParseFixed(w, f, q, k);
      assert FixedText(neg, q, k) == w + "." + f;
      assert (w + "." + f)[0] == w[0];
    }
  }

  /** A minus sign in front of an unsigned decimal negates it. */
  lemma NegatedRead(u: string, r: real)
    requires ParseUnsignedDecimal(u) == Some(r)
    ensures ParseDecimal("-" + u) == Some(-r)
  {
    assert ("-" + u)[1..] == u;
  }

  /** Three decimals print with a trailing zero. */
  lemma Fixed4Example()
    ensures Fixed4(3.123) == "03.1230"
  {
    assert RoundHalfEven(31230.0) == 31230;
    assert Pad2(3) == "03" && Pad2(12) == "12" && Pad2(30) == "30";
  }

  /** A tie in the fifth decimal rounds to the even neighbour. */
  lemma Fixed4TieExample()
    ensures Fixed4(0.03125) == "00.0312"
  {
    assert RoundHalfEven(312.5) == 312;
    assert Pad2(0) == "00" && Pad2(3) == "03" && Pad2(12) == "12";
  }

  /** A negative value carries its sign in place of the padding. */
  lemma Fixed4NegativeExample()
    ensures Fixed4(-3.123) == "-3.1230"
  {
    assert RoundHalfEven(31230.0) == 31230;
    assert Digits(3) == "3" && Pad2(12) == "12" && Pad2(30) == "30";
  }
}
