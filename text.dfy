/** Character-level building blocks of the disassembler's listing: the
    numerals that printf's "%X", "%0<w>X" and "%u" conversions produce, runs of
    spaces, and comma-separated value lists, each with the parser that reads
    it back. */
module Text {

  /** The digit character printf uses for the digit value d (upper-case hex). */
  function DigitChar(d: nat): char
    requires d < 16
  {
    if d < 10 then ('0' as int + d) as char else ('A' as int + d - 10) as char
  }

  /** The value of a digit character; the inverse of DigitChar. */
  function DigitValue(c: char): nat
  {
    if '0' <= c <= '9' then c as int - '0' as int
    else if 'A' <= c <= 'F' then c as int - 'A' as int + 10
    else 0
  }

  /** c is a digit of the given base, written as printf writes it. */
  predicate IsDigit(c: char, base: nat)
  {
    ('0' <= c <= '9' || 'A' <= c <= 'F') && DigitValue(c) < base
  }

  /** The numeral of n in the given base, most significant digit first,
      left-padded with '0' to at least `width` digits: what "%0<width>X"
      (base 16) and "%u" (base 10, width 1) print. */
  function Digits(n: nat, base: nat, width: nat): string
    requires 2 <= base <= 16
    decreases n, width
  {
    if n < base && width <= 1 then [DigitChar(n)]
    else
      DivisionShrinks(n, base);
      Digits(n / base, base, if width > 0 then width - 1 else 0) + [DigitChar(n % base)]
  }

  lemma DivisionShrinks(n: nat, base: nat)
    requires 2 <= base
    ensures n / base <= n && (n >= base ==> n / base < n) && (n < base ==> n / base == 0)
    ensures n % base < base && n == (n / base) * base + n % base
  {
    if n < base {
      DivBetween(n, base, 0);
    } else {
      ScaleUp(base, 2, n / base);
    }
  }

  lemma ScaleUp(a: nat, b: nat, c: nat)
    requires a >= b
    ensures a * c >= b * c
  {
  }

  lemma DivAtLeast(a: nat, d: nat, q: nat)
    requires d >= 1 && d * q <= a
    ensures q <= a / d
  {
    if a / d < q {
      ScaleUp(q, a / d + 1, d);
    }
  }

  lemma DivBetween(a: nat, d: nat, q: nat)
    requires d >= 1 && d * q <= a < d * q + d
    ensures a / d == q
  {
    DivAtLeast(a, d, q);
    if a / d > q {
      ScaleUp(a / d, q + 1, d);
    }
  }

  /** A numeral is made of digits of its base, never shorter than the width
      asked for, and with no leading '0' unless padding asks for one or the
      number is 0. */
  lemma {:induction false} DigitsShape(n: nat, base: nat, width: nat)
    requires 2 <= base <= 16
    ensures |Digits(n, base, width)| >= 1 && |Digits(n, base, width)| >= width
    ensures forall i :: 0 <= i < |Digits(n, base, width)| ==> IsDigit(Digits(n, base, width)[i], base)
    ensures width <= 1 ==> ((Digits(n, base, width)[0] == '0') == (n == 0))
    decreases n, width
  {
    if !(n < base && width <= 1) {
      DivisionShrinks(n, base);
      DigitsShape(n / base, base, if width > 0 then width - 1 else 0);
    }
  }

  /** The value of a numeral, most significant digit first. */
  function Value(s: string, base: nat): nat
  {
    if s == [] then 0 else Value(s[..|s| - 1], base) * base + DigitValue(s[|s| - 1])
  }

  /** Reading a numeral back gives the number printed: padding adds nothing. */
  lemma {:induction false} DigitsRoundTrip(n: nat, base: nat, width: nat)
    requires 2 <= base <= 16
    ensures Value(Digits(n, base, width), base) == n
    decreases n, width
  {
    if !(n < base && width <= 1) {
      DivisionShrinks(n, base);
      var q, d := n / base, n % base;
      var w := if width > 0 then width - 1 else 0;
      var s := Digits(q, base, w);
      var all := s + [DigitChar(d)];
      assert all[..|all| - 1] == s;
      assert DigitValue(all[|all| - 1]) == d;
      DigitsRoundTrip(q, base, w);
      assert Value(all, base) == q * base + d;
    }
  }

  function Pow(base: nat, k: nat): nat
  {
    if k == 0 then 1 else base * Pow(base, k - 1)
  }

  /** A number below base^width is printed in exactly width digits. */
  lemma {:induction false} DigitsFit(n: nat, base: nat, width: nat)
    requires 2 <= base <= 16 && 1 <= width && n < Pow(base, width)
    ensures |Digits(n, base, width)| == width
    decreases width
  {
    if !(n < base && width <= 1) {
      var p := Pow(base, width - 1);
      assert Pow(base, width) == base * p;
      assert width >= 2;
      DivisionShrinks(n, base);
      assert n / base < p by {
        if n / base >= p {
          ScaleUp(n / base, p, base);
        }
      }
      DigitsFit(n / base, base, width - 1);
    }
  }

  /** "%0<width>X": upper-case hex, left-padded with zeros to at least width digits. */
  function Hex(n: nat, width: nat): string
  {
    Digits(n, 16, width)
  }

  /** "%u": the decimal numeral of n. */
  function Dec(n: nat): string
  {
    Digits(n, 10, 1)
  }

  /** Hex renders n exactly: it holds only hex digits, at least width of
      them, exactly width when n fits, and reads back as n. */
  lemma HexRoundTrip(n: nat, width: nat)
    ensures forall i :: 0 <= i < |Hex(n, width)| ==> IsDigit(Hex(n, width)[i], 16)
    ensures |Hex(n, width)| >= width
    ensures 1 <= width && n < Pow(16, width) ==> |Hex(n, width)| == width
    ensures Value(Hex(n, width), 16) == n
  {
    DigitsShape(n, 16, width);
    DigitsRoundTrip(n, 16, width);
    if 1 <= width && n < Pow(16, width) {
      DigitsFit(n, 16, width);
    }
  }

  /** Dec renders n exactly: it holds only decimal digits, no leading zero
      unless n is 0, and reads back as n. */
  lemma DecRoundTrip(n: nat)
    ensures |Dec(n)| >= 1
    ensures forall i :: 0 <= i < |Dec(n)| ==> IsDigit(Dec(n)[i], 10)
    ensures (Dec(n)[0] == '0') == (n == 0)
    ensures Value(Dec(n), 10) == n
  {
    DigitsShape(n, 10, 1);
    DigitsRoundTrip(n, 10, 1);
  }

  /** The hex widths of the listing hold exactly the byte, the 16-bit and
      the 32-bit values. */
  lemma HexWidths()
    ensures Pow(16, 2) == 0x100 && Pow(16, 4) == 0x1_0000 && Pow(16, 8) == 0x1_0000_0000
  {
    assert Pow(16, 1) == 16;
    assert Pow(16, 2) == 0x100;
    assert Pow(16, 3) == 0x1000;
    assert Pow(16, 4) == 0x1_0000;
    assert Pow(16, 5) == 0x10_0000;
    assert Pow(16, 6) == 0x100_0000;
    assert Pow(16, 7) == 0x1000_0000;
  }

  function Spaces(k: nat): string
  {
    if k == 0 then "" else Spaces(k - 1) + " "
  }

  /** Spaces(k) is k blanks. */
  lemma {:induction false} SpacesShape(k: nat)
    ensures |Spaces(k)| == k && forall i :: 0 <= i < k ==> Spaces(k)[i] == ' '
  {
    if k > 0 {
      SpacesShape(k - 1);
    }
  }

  /** Number of line terminators in s. */
  function Newlines(s: string): nat
  {
    if s == [] then 0 else Newlines(s[..|s| - 1]) + (if s[|s| - 1] == '\n' then 1 else 0)
  }

  /** A text without a line terminator adds no line. */
  lemma {:induction false} NoNewlines(s: string)
    requires '\n' !in s
    ensures Newlines(s) == 0
    decreases |s|
  {
    if s != [] {
      assert forall i :: 0 <= i < |s| - 1 ==> s[..|s| - 1][i] == s[i];
      NoNewlines(s[..|s| - 1]);
    }
  }

  lemma OneNewline()
    ensures Newlines("\n") == 1
  {
    assert "\n"[..0] == "";
  }

  lemma {:induction false} NewlinesAdd(a: string, b: string)
    ensures Newlines(a + b) == Newlines(a) + Newlines(b)
    decreases |b|
  {
    if b != [] {
      assert (a + b)[..|a + b| - 1] == a + b[..|b| - 1];
      NewlinesAdd(a, b[..|b| - 1]);
    } else {
      assert a + b == a;
    }
  }

  /** The items separated by commas, with no leading or trailing comma. */
  function Join(items: seq<string>): string
  {
    if |items| == 0 then ""
    else if |items| == 1 then items[0]
    else items[0] + "," + Join(items[1..])
  }

  lemma {:induction false} JoinSnoc(items: seq<string>, x: string)
    requires |items| >= 1
    ensures Join(items + [x]) == Join(items) + "," + x
    decreases |items|
  {
    var all := items + [x];
    assert all[1..] == items[1..] + [x];
    if |items| > 1 {
      JoinSnoc(items[1..], x);
    }
  }

  /** Index of the first comma in s. */
  function FirstComma(s: string): (i: nat)
    requires ',' in s
    ensures i < |s| && s[i] == ',' && ',' !in s[..i]
  {
    if s[0] == ',' then 0 else 1 + FirstComma(s[1..])
  }

  /** s cut at every comma: the parser that reads a Join back. */
  function Split(s: string): seq<string>
    decreases |s|
  {
    if ',' !in s then [s] else var i := FirstComma(s); [s[..i]] + Split(s[i + 1..])
  }

  lemma {:induction false} FirstCommaAfter(x: string, t: string)
    requires ',' !in x
    ensures ',' in x + "," + t && FirstComma(x + "," + t) == |x|
  {
    var s := x + "," + t;
    assert s[|x|] == ',';
    assert s[..|x|] == x;
  }

  /** Splitting a joined list of comma-free items gives the items back. */
  lemma {:induction false} SplitJoin(items: seq<string>)
    requires |items| >= 1
    requires forall k :: 0 <= k < |items| ==> ',' !in items[k]
    ensures Split(Join(items)) == items
    decreases |items|
  {
    if |items| > 1 {
      var x, rest := items[0], Join(items[1..]);
      var s := Join(items);
      assert s == x + "," + rest;
      FirstCommaAfter(x, rest);
      assert s[..|x|] == x;
      assert s[|x| + 1..] == rest;
      SplitJoin(items[1..]);
      calc {
        Split(s);
        [s[..|x|]] + Split(s[|x| + 1..]);
        [x] + items[1..];
        items;
      }
    }
  }

}
