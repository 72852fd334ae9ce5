/** Character-string helpers shared by the client and the server models:
    decimal digits and zero padding, splitting on a separator, prefixes,
    Python's whitespace stripping and `int()` on ASCII text, and the
    lexicographic order Python and JavaScript use to compare strings. */
module Text {
  import opened Options

  // ---------------------------------------------------------------------
  // Decimal digits
  // ---------------------------------------------------------------------

  predicate IsDigit(c: char) {
    '0' <= c <= '9'
  }

  predicate AllDigits(s: string) {
    forall i :: 0 <= i < |s| ==> IsDigit(s[i])
  }

  function DigitValue(c: char): nat
    requires IsDigit(c)
  {
    c as int - '0' as int
  }

  function DigitChar(d: nat): (c: char)
    requires d < 10
    ensures IsDigit(c) && DigitValue(c) == d
  {
    ('0' as int + d) as char
  }

  function Pow10(n: nat): nat {
    if n == 0 then 1 else 10 * Pow10(n - 1)
  }

  /** The value of a string of decimal digits (leading zeros allowed). */
  function NumberOf(s: string): nat
    requires AllDigits(s)
  {
    if |s| == 0 then 0 else NumberOf(s[..|s| - 1]) * 10 + DigitValue(s[|s| - 1])
  }

  /** A numeral of `k` digits is below 10^k. */
  lemma {:induction false} NumberOfBound(s: string)
    requires AllDigits(s)
    ensures NumberOf(s) < Pow10(|s|)
  {
    if |s| > 0 {
      NumberOfBound(s[..|s| - 1]);
    }
  }

  /** A numeral is the zero-padded form of its own value. */
  lemma {:induction false} ZeroPadOfNumeral(s: string)
    requires AllDigits(s)
    ensures ZeroPad(NumberOf(s), |s|) == s
  {
    if |s| > 0 {
      var init := s[..|s| - 1];
      var n := NumberOf(s);
      assert n / 10 == NumberOf(init) && n % 10 == DigitValue(s[|s| - 1]);
      ZeroPadOfNumeral(init);
      assert s == init + [s[|s| - 1]];
    }
  }

  /** `n` written with exactly `width` digits, keeping its last `width`
      digits: Python's `f"{n:02d}"`, `strftime`'s `%m` and `%d`, and
      JavaScript's `padStart(width, '0')` for numbers that fit. */
  function ZeroPad(n: nat, width: nat): (s: string)
    ensures |s| == width && AllDigits(s)
  {
    if width == 0 then "" else ZeroPad(n / 10, width - 1) + [DigitChar(n % 10)]
  }

  /** `n` in decimal with no leading zero: JavaScript template-literal
      interpolation and Python `str()` of a non-negative integer. */
  function Dec(n: nat): (s: string)
    ensures |s| > 0 && AllDigits(s)
  {
    if n < 10 then [DigitChar(n)] else Dec(n / 10) + [DigitChar(n % 10)]
  }

  /** Reading back a zero-padded number gives the number. */
  lemma {:induction false} ZeroPadValue(n: nat, width: nat)
    requires n < Pow10(width)
    ensures NumberOf(ZeroPad(n, width)) == n
  {
    if width > 0 {
      var s := ZeroPad(n, width);
      assert s[..|s| - 1] == ZeroPad(n / 10, width - 1);
      ZeroPadValue(n / 10, width - 1);
    }
  }

  /** Reading back a decimal numeral gives the number. */
  lemma {:induction false} DecValue(n: nat)
    ensures NumberOf(Dec(n)) == n
  {
    if n >= 10 {
      var s := Dec(n);
      assert s[..|s| - 1] == Dec(n / 10);
      DecValue(n / 10);
    } else {
      assert Dec(n)[..0] == [];
    }
  }

  /** A five-digit number is written with five digits either way. */
  lemma {:induction false} DecIsZeroPad5(n: nat)
    requires 10000 <= n <= 99999
    ensures Dec(n) == ZeroPad(n, 5)
  {
    DecIsZeroPad4(n / 10);
    assert Dec(n) == Dec(n / 10) + [DigitChar(n % 10)];
    assert ZeroPad(n, 5) == ZeroPad(n / 10, 4) + [DigitChar(n % 10)];
  }

  /** A four-digit number is written with four digits either way. */
  lemma {:induction false} DecIsZeroPad4(n: nat)
    requires 1000 <= n <= 9999
    ensures Dec(n) == ZeroPad(n, 4)
  {
    var a, b, c := n / 1000, n / 100, n / 10;
    assert c / 10 == b && b / 10 == a && 1 <= a < 10 && 10 <= b && 100 <= c;
    assert Dec(a) == ZeroPad(a, 1);
    assert Dec(b) == ZeroPad(b, 2);
    assert Dec(c) == ZeroPad(c, 3);
  }

  /** JavaScript's `String(n).padStart(2, '0')` is the two-digit form. */
  lemma {:induction false} PadStartDecIsZeroPad2(n: nat)
    requires n < 100
    ensures PadStart(Dec(n), 2, '0') == ZeroPad(n, 2)
  {
    if n < 10 {
      assert ZeroPad(n, 2) == ZeroPad(n / 10, 1) + [DigitChar(n % 10)];
      assert ZeroPad(n / 10, 1) == ZeroPad(0, 0) + [DigitChar(0)];
    } else {
      assert Dec(n / 10) == ZeroPad(n / 10, 1);
    }
  }

  lemma {:induction false} ZeroPadInjective(a: nat, b: nat, width: nat)
    requires a < Pow10(width) && b < Pow10(width)
    requires ZeroPad(a, width) == ZeroPad(b, width)
    ensures a == b
  {
    ZeroPadValue(a, width);
    ZeroPadValue(b, width);
  }

  // ---------------------------------------------------------------------
  // Padding, splitting and prefixes
  // ---------------------------------------------------------------------

  /** JavaScript's `s.padStart(width, fill)`. */
  function PadStart(s: string, width: nat, fill: char): (r: string)
    ensures |r| == if |s| >= width then |s| else width
    ensures r[|r| - |s|..] == s
    ensures forall i :: 0 <= i < |r| - |s| ==> r[i] == fill
  {
    if |s| >= width then s else seq(width - |s|, _ => fill) + s
  }

  /** The inverse of `Split`: the parts joined by `sep`. */
  function Join(parts: seq<string>, sep: char): string
    requires |parts| > 0
  {
    if |parts| == 1 then parts[0] else parts[0] + [sep] + Join(parts[1..], sep)
  }

  /** Python's `s.split(sep)` and JavaScript's `s.split(sep)` for a
      one-character separator: every part is kept, empty ones included. */
  function Split(s: string, sep: char): (parts: seq<string>)
    ensures |parts| > 0
    ensures forall i :: 0 <= i < |parts| ==> sep !in parts[i]
    ensures Join(parts, sep) == s
  {
    if |s| == 0 then [""]
    else if s[0] == sep then [""] + Split(s[1..], sep)
    else
      var rest := Split(s[1..], sep);
      [[s[0]] + rest[0]] + rest[1..]
  }

  /** A piece without the separator splits off as the first part. */
  lemma {:induction false} SplitFront(a: string, b: string, sep: char)
    requires sep !in a
    ensures Split(a + [sep] + b, sep) == [a] + Split(b, sep)
  {
    if |a| > 0 {
      assert (a + [sep] + b)[1..] == a[1..] + [sep] + b;
      SplitFront(a[1..], b, sep);
      assert [a[0]] + a[1..] == a;
    } else {
      assert (a + [sep] + b)[1..] == b;
    }
  }

  /** A string without the separator is one part. */
  lemma {:induction false} SplitNone(a: string, sep: char)
    requires sep !in a
    ensures Split(a, sep) == [a]
  {
    if |a| > 0 {
      SplitNone(a[1..], sep);
      assert [a[0]] + a[1..] == a;
    }
  }

  /** The number of parts is one more than the number of separators. */
  lemma {:induction false} SplitCount(s: string, sep: char)
    ensures |Split(s, sep)| == multiset(s)[sep] + 1
  {
    if |s| > 0 {
      SplitCount(s[1..], sep);
      CountFirst(s, sep);
      SplitLengthStep(s, sep);
    }
  }

  lemma CountFirst(s: string, c: char)
    requires |s| > 0
    ensures multiset(s)[c] == multiset(s[1..])[c] + if s[0] == c then 1 else 0
  {
    assert s == [s[0]] + s[1..];
    assert multiset(s) == multiset([s[0]]) + multiset(s[1..]);
  }

  lemma SplitLengthStep(s: string, sep: char)
    requires |s| > 0
    ensures |Split(s, sep)| == |Split(s[1..], sep)| + if s[0] == sep then 1 else 0
  {
    var rest := Split(s[1..], sep);
    if s[0] == sep {
      assert Split(s, sep) == [""] + rest;
    } else {
      assert Split(s, sep) == [[s[0]] + rest[0]] + rest[1..];
    }
  }

  /** Python's `s.partition(sep)` without the separator: the text before
      the first `sep` and the text after it, or all of `s` and nothing. */
  function Partition(s: string, sep: char): (r: (string, string))
    ensures sep !in r.0
    ensures sep in s ==> s == r.0 + [sep] + r.1
    ensures sep !in s ==> r == (s, "")
  {
    if |s| == 0 then ("", "")
    else if s[0] == sep then ("", s[1..])
    else
      var (a, b) := Partition(s[1..], sep);
      assert s == [s[0]] + s[1..];
      assert sep in s[1..] ==> s == [s[0]] + (a + [sep] + b);
      ([s[0]] + a, b)
  }

  /** Partition splits at the first separator, so a first piece without
      the separator comes back whole. */
  lemma PartitionFirst(a: string, b: string, sep: char)
    requires sep !in a
    ensures Partition(a + [sep] + b, sep) == (a, b)
  {
    var r := Partition(a + [sep] + b, sep);
    PrefixUnique(r.0, r.1, a, b, sep);
  }

  lemma PrefixUnique(a: string, b: string, c: string, d: string, sep: char)
    requires sep !in a && sep !in c && a + [sep] + b == c + [sep] + d
    ensures a == c && b == d
  {
    var s := a + [sep] + b;
    assert forall i :: 0 <= i < |a| ==> s[i] == a[i] != sep;
    assert forall i :: 0 <= i < |c| ==> s[i] == c[i] != sep;
    assert s[|a|] == sep && s[|c|] == sep;
    assert |a| == |c|;
    assert a == s[..|a|] && c == s[..|c|];
    assert b == s[|a| + 1..] && d == s[|c| + 1..];
  }

  predicate StartsWith(s: string, prefix: string) {
    |prefix| <= |s| && s[..|prefix|] == prefix
  }

  // ---------------------------------------------------------------------
  // Python's str.strip() and int()
  // ---------------------------------------------------------------------

  /** The characters Python's `str.isspace()` accepts, which `str.strip()`
      removes: tab to carriage return, the four information separators
      U+001C to U+001F, space, NEL, no-break space, the Ogham space mark,
      the spaces U+2000 to U+200A, the line and paragraph separators, the
      narrow no-break, medium mathematical and ideographic spaces. */
  predicate IsPySpace(c: char) {
    var x := c as int;
    || (9 <= x <= 13) || (28 <= x <= 32) || x == 0x85 || x == 0xA0 || x == 0x1680
    || (0x2000 <= x <= 0x200A) || x == 0x2028 || x == 0x2029 || x == 0x202F || x == 0x205F
    || x == 0x3000
  }

  /** The whitespace `int()` skips around a numeral: non-ASCII whitespace
      becomes a space and then only ASCII tab to carriage return and the
      space are skipped, so the information separators U+001C to U+001F,
      whitespace to `str.strip()`, are not whitespace to `int()`. */
  predicate IsIntSpace(c: char) {
    IsPySpace(c) && !(28 <= c as int <= 31)
  }

  function TrimLeft(s: string, ws: char -> bool): (r: string)
    ensures |r| <= |s| && r == s[|s| - |r|..]
    ensures |r| > 0 ==> !ws(r[0])
    ensures forall k :: 0 <= k < |s| - |r| ==> ws(s[k])
  {
    if |s| > 0 && ws(s[0]) then
      var r := TrimLeft(s[1..], ws);
      assert forall k :: 1 <= k < |s| - |r| ==> s[k] == s[1..][k - 1];
      r
    else s
  }

  function TrimRight(s: string, ws: char -> bool): (r: string)
    ensures |r| <= |s| && r == s[..|r|]
    ensures |r| > 0 ==> !ws(r[|r| - 1])
    ensures forall k :: |r| <= k < |s| ==> ws(s[k])
  {
    if |s| > 0 && ws(s[|s| - 1]) then
      var r := TrimRight(s[..|s| - 1], ws);
      assert forall k :: |r| <= k < |s| - 1 ==> s[k] == s[..|s| - 1][k];
      r
    else s
  }

  /** The infix of `s` left after dropping its leading and trailing
      characters that satisfy `ws`. */
  function Trim(s: string, ws: char -> bool): (r: string)
    ensures |r| > 0 ==> !ws(r[0]) && !ws(r[|r| - 1])
    ensures var lead := |s| - |TrimLeft(s, ws)|;
      && lead + |r| <= |s| && r == s[lead..lead + |r|]
      && (forall k :: 0 <= k < lead ==> ws(s[k]))
      && (forall k :: lead + |r| <= k < |s| ==> ws(s[k]))
  {
    TrimRight(TrimLeft(s, ws), ws)
  }

  /** Python's `s.strip()`: the infix of `s` left after dropping its
      leading and trailing whitespace. */
  function Strip(s: string): (r: string)
    ensures |r| > 0 ==> !IsPySpace(r[0]) && !IsPySpace(r[|r| - 1])
    ensures var lead := |s| - |TrimLeft(s, IsPySpace)|;
      && lead + |r| <= |s| && r == s[lead..lead + |r|]
      && (forall k :: 0 <= k < lead ==> IsPySpace(s[k]))
      && (forall k :: lead + |r| <= k < |s| ==> IsPySpace(s[k]))
  {
    Trim(s, IsPySpace)
  }

  /** Stripping twice is stripping once. */
  lemma StripIdempotent(s: string)
    ensures Strip(Strip(s)) == Strip(s)
  {
    TrimNoSpace(Strip(s), IsPySpace);
  }

  /** A string with nothing to trim at either end is its own trim. */
  lemma TrimNoSpace(s: string, ws: char -> bool)
    requires |s| > 0 ==> !ws(s[0]) && !ws(s[|s| - 1])
    ensures Trim(s, ws) == s
  {
  }

  /** A string that does not start with a trimmed character keeps that
      first character through trimming. */
  lemma TrimKeepsFirst(s: string, ws: char -> bool)
    requires |s| > 0 && !ws(s[0])
    ensures |Trim(s, ws)| > 0 && Trim(s, ws)[0] == s[0]
  {
    assert TrimLeft(s, ws) == s;
    TrimRightKeepsFirst(s, ws);
  }

  lemma {:induction false} TrimRightKeepsFirst(s: string, ws: char -> bool)
    requires |s| > 0 && !ws(s[0])
    ensures |TrimRight(s, ws)| > 0
    decreases |s|
  {
    if ws(s[|s| - 1]) {
      TrimRightKeepsFirst(s[..|s| - 1], ws);
    }
  }

  /** `str.strip()` removes the ideographic space, as any other
      whitespace. */
  lemma StripIdeographicSpace()
    ensures Strip("\U{3000}") == ""
  {
    assert IsPySpace('\U{3000}');
  }

  /** Digits, with single underscores allowed between two digits, as
      Python's `int()` accepts them. */
  predicate Underscored(s: string) {
    && |s| > 0
    && IsDigit(s[0]) && IsDigit(s[|s| - 1])
    && (forall i :: 0 <= i < |s| ==> IsDigit(s[i]) || s[i] == '_')
    && (forall i :: 0 <= i < |s| - 1 ==> !(s[i] == '_' && s[i + 1] == '_'))
  }

  function DropUnderscores(s: string): (r: string)
    requires forall i :: 0 <= i < |s| ==> IsDigit(s[i]) || s[i] == '_'
    ensures AllDigits(r)
  {
    if |s| == 0 then ""
    else if s[0] == '_' then DropUnderscores(s[1..])
    else [s[0]] + DropUnderscores(s[1..])
  }

  lemma {:induction false} DropUnderscoresOfDigits(s: string)
    requires AllDigits(s)
    ensures DropUnderscores(s) == s
  {
    if |s| > 0 {
      DropUnderscoresOfDigits(s[1..]);
      assert [s[0]] + s[1..] == s;
    }
  }

  /** The default of `sys.set_int_max_str_digits` (Python 3.11 and
      later): `int()` of a decimal numeral with more digits than this,
      leading zeros included and underscores not, raises `ValueError`. */
  const MaxStrDigits := 4300

  /** Python's `int(s)` in base 10 for ASCII digits: surrounding
      `int()` whitespace is ignored, one optional sign, then digits with
      single underscores between them, at most `MaxStrDigits` of them;
      anything else raises `ValueError` (here `None`). */
  function PyInt(s: string): (r: Option<int>)
    ensures Trim(s, IsIntSpace) == "" ==> r == None
    ensures AllDigits(Trim(s, IsIntSpace)) && |Trim(s, IsIntSpace)| > MaxStrDigits ==> r == None
    ensures |s| > 0 && 28 <= s[0] as int <= 31 ==> r == None
  {
    var t := Trim(s, IsIntSpace);
    assert |s| > 0 && 28 <= s[0] as int <= 31 ==> |t| > 0 && t[0] == s[0] by {
      if |s| > 0 && 28 <= s[0] as int <= 31 {
        TrimKeepsFirst(s, IsIntSpace);
      }
    }
    assert AllDigits(t) ==> DropUnderscores(t) == t by {
      if AllDigits(t) {
        DropUnderscoresOfDigits(t);
      }
    }
    if |t| > 0 && (t[0] == '+' || t[0] == '-') then
      var body := t[1..];
      if Underscored(body) && |DropUnderscores(body)| <= MaxStrDigits then
        var v: int := NumberOf(DropUnderscores(body));
        Some(if t[0] == '-' then -v else v)
      else None
    else if Underscored(t) && |DropUnderscores(t)| <= MaxStrDigits then
      Some(NumberOf(DropUnderscores(t)))
    else None
  }

  /** A character that is not a digit does not occur in a numeral. */
  lemma NotInDigits(s: string, c: char)
    requires AllDigits(s) && !IsDigit(c)
    ensures c !in s
  {
  }

  /** A plain numeral, however many leading zeros it has, reads as its
      value as long as it has at most `MaxStrDigits` digits. */
  lemma PyIntOfDigits(s: string)
    requires AllDigits(s) && 0 < |s| <= MaxStrDigits
    ensures PyInt(s) == Some(NumberOf(s))
  {
    assert IsDigit(s[0]) && IsDigit(s[|s| - 1]);
    TrimNoSpace(s, IsIntSpace);
    UnderscoredOfDigits(s);
    DropUnderscoresOfDigits(s);
    assert s[0] != '+' && s[0] != '-';
  }

  /** A plain numeral longer than `MaxStrDigits` is refused, even when
      its value is small. */
  lemma PyIntTooLong(s: string)
    requires AllDigits(s) && |s| > MaxStrDigits
    ensures PyInt(s) == None
  {
    assert IsDigit(s[0]) && IsDigit(s[|s| - 1]);
    TrimNoSpace(s, IsIntSpace);
  }

  lemma UnderscoredOfDigits(s: string)
    requires AllDigits(s) && |s| > 0
    ensures Underscored(s)
  {
    assert IsDigit(s[0]) && IsDigit(s[|s| - 1]);
  }

  // ---------------------------------------------------------------------
  // Lexicographic order
  // ---------------------------------------------------------------------

  /** `s < t` on strings in Python and JavaScript: compare character by
      character; a proper prefix comes first. */
  predicate LexLess(s: string, t: string) {
    if |s| == 0 then |t| > 0
    else if |t| == 0 then false
    else if s[0] != t[0] then s[0] < t[0]
    else LexLess(s[1..], t[1..])
  }

  predicate LexLessEq(s: string, t: string) {
    s == t || LexLess(s, t)
  }

  lemma {:induction false} LexLessIrreflexive(s: string)
    ensures !LexLess(s, s)
  {
    if |s| > 0 {
      LexLessIrreflexive(s[1..]);
    }
  }

  lemma {:induction false} LexLessTotal(s: string, t: string)
    ensures s == t || LexLess(s, t) || LexLess(t, s)
  {
    if |s| > 0 && |t| > 0 && s[0] == t[0] {
      LexLessTotal(s[1..], t[1..]);
      if s[1..] == t[1..] {
        assert s == [s[0]] + s[1..] && t == [t[0]] + t[1..];
      }
    }
  }

  lemma {:induction false} LexLessTransitive(s: string, t: string, u: string)
    requires LexLess(s, t) && LexLess(t, u)
    ensures LexLess(s, u)
  {
    if |s| > 0 && s[0] == t[0] && t[0] == u[0] {
      LexLessTransitive(s[1..], t[1..], u[1..]);
    }
  }

  /** Comparing two concatenations whose first pieces have equal length:
      the first pieces decide, and only on a tie do the second pieces. */
  lemma {:induction false} LexLessConcat(p: string, s: string, q: string, t: string)
    requires |p| == |q|
    ensures LexLess(p + s, q + t) <==> LexLess(p, q) || (p == q && LexLess(s, t))
  {
    if |p| > 0 {
      assert (p + s)[1..] == p[1..] + s;
      assert (q + t)[1..] == q[1..] + t;
      LexLessConcat(p[1..], s, q[1..], t);
      if p[0] == q[0] && p[1..] == q[1..] {
        assert p == [p[0]] + p[1..] && q == [q[0]] + q[1..];
      }
    } else {
      assert p + s == s && q + t == t;
    }
  }

  /** Zero-padded numbers of one width sort as the numbers do. */
  lemma {:induction false} ZeroPadOrder(a: nat, b: nat, width: nat)
    requires a < Pow10(width) && b < Pow10(width)
    ensures LexLess(ZeroPad(a, width), ZeroPad(b, width)) <==> a < b
  {
    if width == 0 {
    } else {
      var pa, pb := ZeroPad(a / 10, width - 1), ZeroPad(b / 10, width - 1);
      var ca, cb := [DigitChar(a % 10)], [DigitChar(b % 10)];
      LexLessConcat(pa, ca, pb, cb);
      ZeroPadOrder(a / 10, b / 10, width - 1);
      if pa == pb {
        ZeroPadInjective(a / 10, b / 10, width - 1);
      }
      assert a == a / 10 * 10 + a % 10 && b == b / 10 * 10 + b % 10;
    }
  }
}
