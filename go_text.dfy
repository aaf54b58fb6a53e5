/** The parts of Go's standard library text handling that the catalog service
    relies on: `strings.TrimSpace`, `len` of a string (its UTF-8 byte count),
    `fmt.Sprintf("%d", n)`, `strconv.Atoi` on a 64-bit platform and
    `strings.Split` with a one-character separator. Go strings are UTF-8 byte
    strings; here a string is a sequence of Unicode scalar values, and byte
    counts are computed from the encoding. */
module GoText {

  import opened Optional

  // ---------------------------------------------------------------------------
  // Whitespace and strings.TrimSpace

  /** `unicode.IsSpace`: the Unicode White_Space property. */
  predicate IsSpace(c: char) {
    var n := c as int;
    (9 <= n <= 13) || n == 32 || n == 0x85 || n == 0xA0 || n == 0x1680
    || (0x2000 <= n <= 0x200A) || n == 0x2028 || n == 0x2029 || n == 0x202F
    || n == 0x205F || n == 0x3000
  }

  /** Every character of `s` is white space (vacuously true of ""). */
  predicate IsBlank(s: string) {
    forall i :: 0 <= i < |s| ==> IsSpace(s[i])
  }

  /** Drops leading white space: the result is a suffix of `s`, what was
      dropped is blank, and the result does not start with white space. */
  function TrimLeft(s: string): (r: string)
    ensures |r| <= |s| && r == s[|s| - |r|..]
    ensures IsBlank(s[..|s| - |r|])
    ensures r != [] ==> !IsSpace(r[0])
    decreases |s|
  {
    if |s| > 0 && IsSpace(s[0]) then
      var r := TrimLeft(s[1..]);
      assert s[1..][..|s| - 1 - |r|] == s[1..|s| - |r|];
      r
    else s
  }

  /** Drops trailing white space: the result is a prefix of `s`, what was
      dropped is blank, and the result does not end with white space. */
  function TrimRight(s: string): (r: string)
    ensures |r| <= |s| && r == s[..|r|]
    ensures IsBlank(s[|r|..])
    ensures r != [] ==> !IsSpace(r[|r| - 1])
    decreases |s|
  {
    if |s| > 0 && IsSpace(s[|s| - 1]) then
      var r := TrimRight(s[..|s| - 1]);
      assert r == s[..|s| - 1][..|r|] == s[..|r|];
      assert s[|r|..] == s[..|s| - 1][|r|..] + [s[|s| - 1]];
      r
    else s
  }

  /** `strings.TrimSpace`. */
  function TrimSpace(s: string): string {
    TrimRight(TrimLeft(s))
  }

  /** TrimSpace leaves nothing exactly when the string is all white space. */
  lemma TrimSpaceEmptyIff(s: string)
    ensures TrimSpace(s) == "" <==> IsBlank(s)
  {
    var l := TrimLeft(s);
    if l == [] {
      assert s[..|s| - |l|] == s;
    } else {
      assert TrimRight(l) != [] by {
        assert !IsSpace(l[0]);
      }
      assert !IsSpace(s[|s| - |l|]);
    }
  }

  // ---------------------------------------------------------------------------
  // UTF-8 byte length: Go's len on a string

  /** Number of bytes of the UTF-8 encoding of one scalar value. */
  function RuneLen(c: char): (n: nat)
    ensures 1 <= n <= 4
    ensures n == 1 <==> (c as int) < 0x80
  {
    var v := c as int;
    if v < 0x80 then 1 else if v < 0x800 then 2 else if v < 0x10000 then 3 else 4
  }

  /** Number of bytes of the UTF-8 encoding of `s`; equals the number of
      characters exactly when every character is ASCII. */
  function Utf8Len(s: string): (n: nat)
    ensures |s| <= n <= 4 * |s|
    ensures n == |s| <==> forall i :: 0 <= i < |s| ==> (s[i] as int) < 0x80
  {
    if s == [] then 0
    else
      var n := RuneLen(s[0]) + Utf8Len(s[1..]);
      assert forall i :: 1 <= i < |s| ==> s[1..][i - 1] == s[i];
      n
  }

  // ---------------------------------------------------------------------------
  // Decimal formatting: fmt.Sprintf("%d", n)

  predicate IsDigit(c: char) {
    '0' <= c <= '9'
  }

  predicate AllDigits(s: string) {
    forall i :: 0 <= i < |s| ==> IsDigit(s[i])
  }

  function DigitChar(d: nat): (c: char)
    requires d <= 9
    ensures IsDigit(c) && (c as int) - ('0' as int) == d
  {
    ('0' as int + d) as char
  }

  /** Decimal digits of `n`, without leading zeros. */
  function NatDigits(n: nat): (s: string)
    ensures |s| >= 1 && AllDigits(s)
    ensures s[0] == '0' ==> n == 0
  {
    if n < 10 then [DigitChar(n)] else NatDigits(n / 10) + [DigitChar(n % 10)]
  }

  /** `fmt.Sprintf("%d", n)`: a minus sign for negative numbers, then digits. */
  function FormatInt(n: int): (s: string)
    ensures |s| >= 1
    ensures s[0] == '-' <==> n < 0
  {
    if n < 0 then "-" + NatDigits(-n) else NatDigits(n)
  }

  // ---------------------------------------------------------------------------
  // Decimal parsing: strconv.Atoi

  /** Value of a string of decimal digits, most significant first. */
  function DigitsValue(s: string): nat
    requires AllDigits(s)
  {
    if s == [] then 0
    else DigitsValue(s[..|s| - 1]) * 10 + ((s[|s| - 1] as int) - ('0' as int))
  }

  /** An optional sign followed by at least one decimal digit, with no bound on
      the value: the syntax `strconv.ParseInt` accepts in base 10. */
  function ParseDecimal(s: string): Option<int> {
    if |s| == 0 then None
    else
      var negative := s[0] == '-';
      var body := if s[0] == '-' || s[0] == '+' then s[1..] else s;
      if |body| == 0 || !AllDigits(body) then None
      else
        var v: int := DigitsValue(body);
        Some(if negative then -v else v)
  }

  const MinInt64: int := -0x8000_0000_0000_0000
  const MaxInt64: int := 0x7FFF_FFFF_FFFF_FFFF

  predicate InInt64(n: int) {
    MinInt64 <= n <= MaxInt64
  }

  /** `strconv.Atoi` with Go's 64-bit `int`: a syntax error or an out-of-range
      value is `None`. */
  function Atoi(s: string): (r: Option<int>)
    ensures r.Some? ==> InInt64(r.value) && ParseDecimal(s) == r
    ensures r.None? <==> ParseDecimal(s).None? || !InInt64(ParseDecimal(s).value)
  {
    match ParseDecimal(s)
    case None => None
    case Some(n) => if InInt64(n) then Some(n) else None
  }

  lemma {:induction false} DigitsValueOfNatDigits(n: nat)
    ensures DigitsValue(NatDigits(n)) == n
  {
    var s := NatDigits(n);
    if n >= 10 {
      DigitsValueOfNatDigits(n / 10);
      assert s[..|s| - 1] == NatDigits(n / 10);
    }
  }

  /** Parsing a formatted integer gives it back. */
  lemma ParseFormatInt(n: int)
    ensures ParseDecimal(FormatInt(n)) == Some(n)
  {
    DigitsValueOfNatDigits(if n < 0 then -n else n);
    if n < 0 {
      assert FormatInt(n)[1..] == NatDigits(-n);
    }
  }

  /** `Atoi` inverts `%d` formatting on every 64-bit integer. */
  lemma AtoiFormatInt(n: int)
    requires InInt64(n)
    ensures Atoi(FormatInt(n)) == Some(n)
  {
    ParseFormatInt(n);
  }

  /** Distinct integers format to distinct strings. */
  lemma FormatIntInjective(a: int, b: int)
    ensures FormatInt(a) == FormatInt(b) ==> a == b
  {
    ParseFormatInt(a);
    ParseFormatInt(b);
  }

  // ---------------------------------------------------------------------------
  // strings.Split with a one-character separator

  /** Joins `parts` with `sep` between consecutive parts. */
  function Join(parts: seq<string>, sep: char): string
    requires |parts| >= 1
  {
    if |parts| == 1 then parts[0] else parts[0] + [sep] + Join(parts[1..], sep)
  }

  /** `strings.Split(s, sep)`: the maximal pieces of `s` between occurrences of
      `sep`; the pieces never contain `sep` and joining them with `sep` gives
      `s` back. A string without `sep` (including "") is a single piece. */
  function Split(s: string, sep: char): (parts: seq<string>)
    ensures |parts| >= 1
    ensures Join(parts, sep) == s
    ensures forall i :: 0 <= i < |parts| ==> sep !in parts[i]
    decreases |s|
  {
    if |s| == 0 then [""]
    else
      var rest := Split(s[1..], sep);
      if s[0] == sep then
        assert s == [sep] + s[1..];
        [""] + rest
      else
        var parts := [[s[0]] + rest[0]] + rest[1..];
        assert parts[1..] == rest[1..];
        assert s == [s[0]] + s[1..];
        parts
  }

  /** Splitting a string that contains no separator gives the string itself. */
  lemma {:induction false} SplitNoSeparator(s: string, sep: char)
    requires sep !in s
    ensures Split(s, sep) == [s]
    decreases |s|
  {
    if |s| > 0 {
      SplitNoSeparator(s[1..], sep);
      assert [s[0]] + s[1..] == s;
    }
  }

  /** Splitting `a + sep + b`, where `a` holds no separator, cuts at that
      separator first. */
  lemma {:induction false} SplitAtFirst(a: string, b: string, sep: char)
    requires sep !in a
    ensures Split(a + [sep] + b, sep) == [a] + Split(b, sep)
    decreases |a|
  {
    var s := a + [sep] + b;
    if |a| == 0 {
      assert s[1..] == b;
    } else {
      assert s[1..] == a[1..] + [sep] + b;
      SplitAtFirst(a[1..], b, sep);
      assert [a[0]] + a[1..] == a;
    }
  }
}
