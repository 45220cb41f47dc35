/**
 * The JavaScript built-ins the trimmer's text handling relies on, over `string`:
 * `String.prototype.split` with a one-character separator, `padStart`,
 * `Number.prototype.toString` for integers, and `parseFloat` over the decimal grammar.
 */
module JsText {
  import opened Wrappers

  // ---------------------------------------------------------------------------
  // Decimal digits
  // ---------------------------------------------------------------------------

  predicate IsDigit(c: char)
  {
    '0' <= c <= '9'
  }

  predicate AllDigits(s: string)
  {
    forall i :: 0 <= i < |s| ==> IsDigit(s[i])
  }

  /** The value of a digit character; other characters count as zero. */
  function DigitValue(c: char): (d: nat)
    ensures d < 10
    ensures IsDigit(c) ==> d == c as int - '0' as int
  {
    if IsDigit(c) then c as int - '0' as int else 0
  }

  function DigitChar(d: nat): (c: char)
    requires d < 10
    ensures IsDigit(c) && DigitValue(c) == d
  {
    ('0' as int + d) as char
  }

  /** The value of a run of decimal digits, most significant first. */
  function DigitsValue(d: string): nat
  {
    if d == [] then 0 else DigitsValue(d[..|d| - 1]) * 10 + DigitValue(d[|d| - 1])
  }

  /** `Number.prototype.toString()` of a non-negative integer: its decimal digits without leading zeros. */
  function NatToString(n: nat): (s: string)
    ensures |s| >= 1 && AllDigits(s)
    ensures n < 10 <==> |s| == 1
    ensures n > 0 ==> s[0] != '0'
    decreases n
  {
    if n < 10 then [DigitChar(n)] else NatToString(n / 10) + [DigitChar(n % 10)]
  }

  /** `Number.prototype.toString()` of any integer: a minus sign before the digits of a negative one. */
  function IntToString(n: int): (s: string)
    ensures n >= 0 ==> s == NatToString(n)
    ensures n < 0 ==> s == "-" + NatToString(-n)
  {
    if n < 0 then "-" + NatToString(-n) else NatToString(n)
  }

  /** The digits render the number back: the decimal value of `NatToString(n)` is `n`. */
  lemma {:induction false} NatToStringValue(n: nat)
    ensures DigitsValue(NatToString(n)) == n
    decreases n
  {
    if n >= 10 {
      var s := NatToString(n);
      assert s[..|s| - 1] == NatToString(n / 10);
      NatToStringValue(n / 10);
    }
  }

  // ---------------------------------------------------------------------------
  // String.prototype.padStart
  // ---------------------------------------------------------------------------

  /** `s.padStart(width, fill)` with a one-character filler. */
  function PadStart(s: string, width: nat, fill: char): (r: string)
    ensures |s| >= width ==> r == s
    ensures |s| < width ==> |r| == width && r[width - |s|..] == s
    ensures forall i :: 0 <= i < |r| - |s| ==> r[i] == fill
  {
    if |s| >= width then s else seq(width - |s|, _ => fill) + s
  }

  /** A number below one hundred, padded to two places, is its tens digit then its units digit. */
  lemma TwoDigitsOf(n: nat)
    requires n < 100
    ensures PadStart(NatToString(n), 2, '0') == [DigitChar(n / 10), DigitChar(n % 10)]
  {
    if n >= 10 {
      assert NatToString(n / 10) == [DigitChar(n / 10)];
    }
  }

  /** `n.toString().padStart(2, '0')` for `n` below one hundred: exactly two digits, worth `n`. */
  function TwoDigitText(n: nat): (s: string)
    requires n < 100
    ensures |s| == 2 && AllDigits(s) && DigitsValue(s) == n
  {
    TwoDigitsOf(n);
    var tens, units := DigitChar(n / 10), DigitChar(n % 10);
    assert DigitsValue([tens]) == n / 10 by {
      assert [tens][..0] == [];
    }
    assert DigitsValue([tens, units]) == n by {
      assert [tens, units][..1] == [tens];
    }
    PadStart(NatToString(n), 2, '0')
  }

  // ---------------------------------------------------------------------------
  // String.prototype.split and its inverse
  // ---------------------------------------------------------------------------

  /** `parts.join(sep)`. */
  function Join(parts: seq<string>, sep: char): string
  {
    if |parts| == 0 then ""
    else if |parts| == 1 then parts[0]
    else parts[0] + [sep] + Join(parts[1..], sep)
  }

  /** The index of the first `c` in `s`, or `|s|` when there is none. */
  function IndexOf(s: string, c: char): (i: nat)
    ensures i <= |s| && c !in s[..i]
    ensures i < |s| ==> s[i] == c
  {
    if s == [] then 0
    else if s[0] == c then 0
    else
      var i := 1 + IndexOf(s[1..], c);
      assert s[..i] == [s[0]] + s[1..][..i - 1];
      i
  }

  /**
   * `s.split(sep)` for a one-character separator: the pieces between separators,
   * one more piece than there are separators, the empty string giving `[""]`.
   */
  function Split(s: string, sep: char): (parts: seq<string>)
    ensures |parts| == multiset(s)[sep] + 1
    ensures forall k :: 0 <= k < |parts| ==> sep !in parts[k]
    ensures Join(parts, sep) == s
    decreases |s|
  {
    var i := IndexOf(s, sep);
    if i == |s| then
      assert s[..i] == s;
      [s]
    else
      var rest := Split(s[i + 1..], sep);
      SplitCons(s, sep, i, rest);
      [s[..i]] + rest
  }

  /** The piece before the first separator, put before the pieces of the rest, splits the whole text. */
  lemma SplitCons(s: string, sep: char, i: nat, rest: seq<string>)
    requires i < |s| && s[i] == sep && sep !in s[..i]
    requires |rest| == multiset(s[i + 1..])[sep] + 1
    requires forall k :: 0 <= k < |rest| ==> sep !in rest[k]
    requires Join(rest, sep) == s[i + 1..]
    ensures |[s[..i]] + rest| == multiset(s)[sep] + 1
    ensures forall k :: 0 <= k < |[s[..i]] + rest| ==> sep !in ([s[..i]] + rest)[k]
    ensures Join([s[..i]] + rest, sep) == s
  {
    var parts := [s[..i]] + rest;
    assert s == s[..i] + [sep] + s[i + 1..];
    assert Join(parts, sep) == s by {
      assert parts[0] == s[..i] && parts[1..] == rest;
    }
    assert multiset(s)[sep] == multiset(s[i + 1..])[sep] + 1 by {
      assert multiset(s) == multiset(s[..i]) + multiset([sep]) + multiset(s[i + 1..]);
      assert multiset(s[..i])[sep] == 0;
    }
    assert forall k :: 1 <= k < |parts| ==> parts[k] == rest[k - 1];
  }

  /** Splitting a string whose first piece holds no separator yields that piece first. */
  lemma SplitAfterPiece(a: string, sep: char, b: string)
    requires sep !in a
    ensures Split(a + [sep] + b, sep) == [a] + Split(b, sep)
  {
    var s := a + [sep] + b;
    var i := IndexOf(s, sep);
    assert s[|a|] == sep;
    assert s[..|a|] == a;
    assert s[..i] == a && s[i + 1..] == b;
  }

  /** The first piece of a split is the text before the first separator, or all of it. */
  lemma SplitFirstPiece(s: string, sep: char)
    ensures Split(s, sep)[0] == s[..IndexOf(s, sep)]
  {
    if IndexOf(s, sep) == |s| {
      assert s[..|s|] == s;
    }
  }

  /** Splitting a string without the separator yields the string alone. */
  lemma NoSeparatorSplit(s: string, sep: char)
    requires sep !in s
    ensures Split(s, sep) == [s]
  {
    assert multiset(s)[sep] == 0;
  }

  /** Split undoes Join: pieces free of the separator are recovered exactly. */
  lemma {:induction false} SplitJoin(parts: seq<string>, sep: char)
    requires |parts| >= 1
    requires forall i :: 0 <= i < |parts| ==> sep !in parts[i]
    ensures Split(Join(parts, sep), sep) == parts
    decreases |parts|
  {
    if |parts| == 1 {
      NoSeparatorSplit(parts[0], sep);
    } else {
      SplitJoin(parts[1..], sep);
      SplitAfterPiece(parts[0], sep, Join(parts[1..], sep));
      assert [parts[0]] + parts[1..] == parts;
    }
  }

  // ---------------------------------------------------------------------------
  // parseFloat as a left-to-right scan
  // ---------------------------------------------------------------------------

  /** The white-space and line-terminator characters `parseFloat` skips before the number. */
  predicate IsJsWhitespace(c: char)
  {
    || c == '\t' || c == '\n' || c == '\U{000B}' || c == '\U{000C}' || c == '\r' || c == ' '
    || c == '\U{00A0}' || c == '\U{1680}' || ('\U{2000}' <= c <= '\U{200A}')
    || c == '\U{2028}' || c == '\U{2029}' || c == '\U{202F}' || c == '\U{205F}'
    || c == '\U{3000}' || c == '\U{FEFF}'
  }

  /**
   * How much of a decimal literal `parseFloat` has read: the sign, the mantissa digits
   * read as one integer `m`, how many of them follow the point (`k`), and the exponent.
   */
  datatype ScanState =
    | Lead                                                   // only white space so far
    | AfterSign(neg: bool)                                   // a sign, no digit yet
    | Whole(neg: bool, m: nat)                               // integer digits
    | BarePoint(neg: bool)                                   // a point with no digit before it
    | Fraction(neg: bool, m: nat, k: nat)                    // digits, a point and k more digits
    | ExpMark(neg: bool, m: nat, k: nat)                     // a mantissa and then `e` or `E`
    | ExpSign(neg: bool, m: nat, k: nat, eneg: bool)         // ... and the exponent's sign
    | ExpDigits(neg: bool, m: nat, k: nat, eneg: bool, e: nat)

  /** `m` times ten to the power `e`, for any integer `e`. */
  function Scale(m: real, e: int): real
    decreases if e < 0 then -e else e
  {
    if e == 0 then m else if e > 0 then Scale(10.0 * m, e - 1) else Scale(m / 10.0, e + 1)
  }

  function WithSign(neg: bool, v: real): real
  {
    if neg then -v else v
  }

  /** The literal read so far may be extended by `c`: the next state, or None when the literal ends before `c`. */
  function Step(st: ScanState, c: char): Option<ScanState>
  {
    match st
    case Lead =>
      if IsJsWhitespace(c) then Some(Lead)
      else if c == '+' || c == '-' then Some(AfterSign(c == '-'))
      else if IsDigit(c) then Some(Whole(false, DigitValue(c)))
      else if c == '.' then Some(BarePoint(false))
      else None
    case AfterSign(neg) =>
      if IsDigit(c) then Some(Whole(neg, DigitValue(c)))
      else if c == '.' then Some(BarePoint(neg))
      else None
    case Whole(neg, m) =>
      if IsDigit(c) then Some(Whole(neg, 10 * m + DigitValue(c)))
      else if c == '.' then Some(Fraction(neg, m, 0))
      else if c == 'e' || c == 'E' then Some(ExpMark(neg, m, 0))
      else None
    case BarePoint(neg) =>
      if IsDigit(c) then Some(Fraction(neg, DigitValue(c), 1)) else None
    case Fraction(neg, m, k) =>
      if IsDigit(c) then Some(Fraction(neg, 10 * m + DigitValue(c), k + 1))
      else if c == 'e' || c == 'E' then Some(ExpMark(neg, m, k))
      else None
    case ExpMark(neg, m, k) =>
      if c == '+' || c == '-' then Some(ExpSign(neg, m, k, c == '-'))
      else if IsDigit(c) then Some(ExpDigits(neg, m, k, false, DigitValue(c)))
      else None
    case ExpSign(neg, m, k, eneg) =>
      if IsDigit(c) then Some(ExpDigits(neg, m, k, eneg, DigitValue(c))) else None
    case ExpDigits(neg, m, k, eneg, e) =>
      if IsDigit(c) then Some(ExpDigits(neg, m, k, eneg, 10 * e + DigitValue(c))) else None
  }

  /**
   * The number read when the literal ends in state `st`: None when no digit was read;
   * an exponent marker or sign without digits is dropped (the longest literal ends before it).
   */
  function Finish(st: ScanState): Option<real>
  {
    match st
    case Lead => None
    case AfterSign(_) => None
    case BarePoint(_) => None
    case Whole(neg, m) => Some(WithSign(neg, m as real))
    case Fraction(neg, m, k) => Some(WithSign(neg, Scale(m as real, -(k as int))))
    case ExpMark(neg, m, k) => Some(WithSign(neg, Scale(m as real, -(k as int))))
    case ExpSign(neg, m, k, _) => Some(WithSign(neg, Scale(m as real, -(k as int))))
    case ExpDigits(neg, m, k, eneg, e) => Some(WithSign(neg, Scale(m as real, (if eneg then -(e as int) else e) - k)))
  }

  /** Read `s` from state `st` until the literal can no longer be extended. */
  function Scan(s: string, st: ScanState): Option<real>
    decreases |s|
  {
    if s == [] then Finish(st)
    else
      match Step(st, s[0])
      case None => Finish(st)
      case Some(next) => Scan(s[1..], next)
  }

  /**
   * `parseFloat(s)`: skip leading white space, read an optional sign and the longest
   * decimal literal; the rest of the text is ignored. None stands for NaN.
   */
  function ParseFloat(s: string): Option<real>
  {
    Scan(s, Lead)
  }

  /** The value of the digits of `a` followed by those of `b`. */
  lemma {:induction false} DigitsValueAppend(a: string, b: string)
    ensures DigitsValue(a + b) == DigitsValue(a) * Pow10(|b|) + DigitsValue(b)
    decreases |b|
  {
    if b == [] {
      assert a + b == a;
    } else {
      var b' := b[..|b| - 1];
      assert (a + b)[..|a + b| - 1] == a + b';
      assert (a + b)[|a + b| - 1] == b[|b| - 1];
      DigitsValueAppend(a, b');
      var last := DigitValue(b[|b| - 1]);
      assert DigitsValue(a + b) == DigitsValue(a + b') * 10 + last;
      assert DigitsValue(b) == DigitsValue(b') * 10 + last;
      ShiftDigit(DigitsValue(a), Pow10(|b'|), DigitsValue(b'), last);
    }
  }

  /** Appending a digit `d` to a number `x * p + z` is the same as shifting `x` one more place and appending `d` to `z`. */
  lemma ShiftDigit(x: int, p: int, z: int, d: int)
    ensures (x * p + z) * 10 + d == x * (p * 10) + (z * 10 + d)
  {
  }

  /** Ten to the power `n`. */
  function Pow10(n: nat): nat
  {
    if n == 0 then 1 else 10 * Pow10(n - 1)
  }

  /** Reading integer digits appends them to the integer read so far. */
  lemma {:induction false} ScanWhole(p: string, d: string, r: string, neg: bool)
    requires AllDigits(d)
    ensures Scan(d + r, Whole(neg, DigitsValue(p))) == Scan(r, Whole(neg, DigitsValue(p + d)))
    decreases |d|
  {
    if d == [] {
      assert d + r == r && p + d == p;
    } else {
      var q := p + [d[0]];
      assert q[..|q| - 1] == p;
      assert (d + r)[1..] == d[1..] + r;
      assert p + d == q + d[1..];
      ScanWhole(q, d[1..], r, neg);
    }
  }

  /** Reading fraction digits appends them to the mantissa and counts them. */
  lemma {:induction false} ScanFraction(p: string, d: string, r: string, neg: bool, k: nat)
    requires AllDigits(d)
    ensures Scan(d + r, Fraction(neg, DigitsValue(p), k)) == Scan(r, Fraction(neg, DigitsValue(p + d), k + |d|))
    decreases |d|
  {
    if d == [] {
      assert d + r == r && p + d == p;
    } else {
      var q := p + [d[0]];
      assert q[..|q| - 1] == p;
      assert (d + r)[1..] == d[1..] + r;
      assert p + d == q + d[1..];
      ScanFraction(q, d[1..], r, neg, k + 1);
    }
  }

  /** Text that starts with neither white space, a sign, a digit nor a point is NaN. */
  lemma ParseFloatNotANumber(s: string)
    requires s != [] && !IsJsWhitespace(s[0]) && s[0] != '+' && s[0] != '-' && !IsDigit(s[0]) && s[0] != '.'
    ensures ParseFloat(s) == None
  {
  }

  /** A scan that has read no digit yet gives a number only if a digit is still to come. */
  lemma {:induction false} ScanNeedsDigit(s: string, st: ScanState)
    requires st.Lead? || st.AfterSign? || st.BarePoint?
    requires Scan(s, st).Some?
    ensures exists i :: 0 <= i < |s| && IsDigit(s[i])
    decreases |s|
  {
    if IsDigit(s[0]) {
      assert IsDigit(s[0]);
    } else {
      var next := Step(st, s[0]).value;
      ScanNeedsDigit(s[1..], next);
      var i :| 0 <= i < |s[1..]| && IsDigit(s[1..][i]);
      assert IsDigit(s[i + 1]);
    }
  }

  /** `parseFloat` is NaN for text without a digit: a sign, a point or an exponent alone is no number. */
  lemma ParseFloatNeedsDigit(s: string)
    requires ParseFloat(s).Some?
    ensures exists i :: 0 <= i < |s| && IsDigit(s[i])
  {
    ScanNeedsDigit(s, Lead);
  }

  /** Leading white space is skipped. */
  lemma ParseFloatSkipsWhitespace(c: char, s: string)
    requires IsJsWhitespace(c)
    ensures ParseFloat([c] + s) == ParseFloat(s)
  {
    assert ([c] + s)[1..] == s;
  }

  /** From the start, a non-empty run of digits is read as an integer worth those digits. */
  lemma ScanLeadingDigits(d: string, r: string)
    requires d != [] && AllDigits(d)
    ensures Scan(d + r, Lead) == Scan(r, Whole(false, DigitsValue(d)))
  {
    var s, p := d + r, [d[0]];
    assert s[0] == d[0] && IsDigit(d[0]);
    assert Step(Lead, s[0]) == Some(Whole(false, DigitValue(d[0])));
    assert p[..0] == [];
    assert DigitsValue(p) == DigitValue(d[0]);
    assert s[1..] == d[1..] + r;
    ScanWhole(p, d[1..], r, false);
    assert p + d[1..] == d;
  }

  /**
   * A run of digits followed by text that cannot continue a literal (nothing, or a
   * character other than a digit, a point or an exponent letter) is worth its digits.
   */
  lemma ParseFloatDigits(d: string, r: string)
    requires d != [] && AllDigits(d)
    requires r == [] || (!IsDigit(r[0]) && r[0] != '.' && r[0] != 'e' && r[0] != 'E')
    ensures ParseFloat(d + r) == Some(DigitsValue(d) as real)
  {
    ScanLeadingDigits(d, r);
  }

  /** The digits of a natural number, and nothing after them, parse back to that number. */
  lemma ParseFloatNat(n: nat)
    ensures ParseFloat(NatToString(n)) == Some(n as real)
  {
    ParseFloatDigits(NatToString(n), []);
    assert NatToString(n) + [] == NatToString(n);
    NatToStringValue(n);
  }

  /**
   * Digits, a point and digits parse as all the digits read as one integer, scaled down by
   * one place for every digit after the point.
   */
  lemma ParseFloatDecimal(d: string, h: string)
    requires d != [] && AllDigits(d) && AllDigits(h)
    ensures ParseFloat(d + "." + h) == Some(Scale(DigitsValue(d + h) as real, -|h|))
  {
    assert d + "." + h == d + ("." + h);
    ScanLeadingDigits(d, "." + h);
    ScanPointDigits(d, h);
  }

  /** After the whole digits `d`, a point and the digits `h` end the literal as all the digits scaled down by `|h|` places. */
  lemma ScanPointDigits(d: string, h: string)
    requires AllDigits(h)
    ensures Scan("." + h, Whole(false, DigitsValue(d))) == Some(Scale(DigitsValue(d + h) as real, -|h|))
  {
    PointAfterWhole(DigitsValue(d), h);
    assert h + [] == h;
    ScanFraction(d, h, [], false, 0);
    FinishFraction(DigitsValue(d + h), |h|);
  }

  /** A point after whole digits starts the fraction with no fractional digit yet. */
  lemma PointAfterWhole(m: nat, h: string)
    ensures Scan("." + h, Whole(false, m)) == Scan(h, Fraction(false, m, 0))
  {
    assert ("." + h)[0] == '.' && ("." + h)[1..] == h;
  }

  /** A literal ending after `k` fractional digits is worth its digits scaled down by `k` places. */
  lemma FinishFraction(m: nat, k: nat)
    ensures Scan([], Fraction(false, m, k)) == Some(Scale(m as real, -(k as int)))
  {
  }

  /** Two digits, a point and two digits parse as the whole part plus hundredths. */
  lemma ParseFloatTwoPlaces(whole: nat, hundredths: nat)
    requires whole < 100 && hundredths < 100
    ensures ParseFloat(TwoDigitText(whole) + "." + TwoDigitText(hundredths))
         == Some(whole as real + hundredths as real / 100.0)
  {
    var w, h := TwoDigitText(whole), TwoDigitText(hundredths);
    ParseFloatDecimal(w, h);
    DigitsValueAppend(w, h);
    assert Pow10(|h|) == 100;
    ScaleHundredths((100 * whole + hundredths) as real);
  }

  /** Scaling down by two places divides by one hundred. */
  lemma ScaleHundredths(m: real)
    ensures Scale(m, -2) == m / 100.0
  {
    assert Scale(m, -2) == Scale(m / 10.0, -1) == Scale(m / 10.0 / 10.0, 0);
  }
}
