/** Character-level helpers of the parser: the free functions `firstAndLastMatch`,
    `strContains`, `isNum` and `isEmpty`, the NUL-terminated indexing of `std::string`,
    and the decimal conversions behind `atoi` and `operator<<(int)`.
    A `char` stands for one byte of a C++ `std::string`. */
module Text {

  /** The C++ `int`: a 32-bit two's-complement integer. */
  type Int32 = x: int | -0x8000_0000 <= x < 0x8000_0000

  predicate InInt32(x: int) {
    -0x8000_0000 <= x < 0x8000_0000
  }

  /** `s[i]` on a `std::string`: defined up to `i == |s|`, where it is the terminating NUL. */
  function At(s: string, i: nat): char
    requires i <= |s|
  {
    if i < |s| then s[i] else '\0'
  }

  /** `strContains(str, c)`: `str.find(c) != npos`. */
  function StrContains(str: string, c: char): (r: bool)
    ensures r <==> exists k :: 0 <= k < |str| && str[k] == c
  {
    c in str
  }

  /** `firstAndLastMatch(str, first, last)`. On the empty string `str[0]` is the NUL, so
      the test fails before `str[length() - 1]` is read, unless `first` is itself NUL. */
  function FirstAndLastMatch(str: string, first: char, last: char): (r: bool)
    requires |str| > 0 || first != '\0'
    ensures r <==> |str| > 0 && str[0] == first && str[|str| - 1] == last
  {
    At(str, 0) == first && str[|str| - 1] == last
  }

  predicate IsDigit(c: char) {
    '0' <= c <= '9'
  }

  /** `isNum(c)`: `c` may start a number token, that is, it is a digit, `.` or `-`. */
  function IsNum(c: char): (r: bool)
    ensures r <==> IsDigit(c) || c == '.' || c == '-'
  {
    StrContains("0123456789.-", c)
  }

  /** `isEmpty(c)`: the three characters the scanner treats as blank. */
  function IsEmpty(c: char): (r: bool)
    ensures r <==> c in {' ', '\n', '\t'}
  {
    c == ' ' || c == '\n' || c == '\t'
  }

  // ---------------------------------------------------------------------------
  // Decimal text of integers

  function DigitChar(d: nat): char
    requires d < 10
  {
    "0123456789"[d]
  }

  function DigitValue(c: char): nat
    requires IsDigit(c)
  {
    (c as int - '0' as int) as nat
  }

  /** Decimal digits of a natural number, most significant first, no leading zeros. */
  function NatToString(n: nat): (r: string)
    decreases n
  {
    if n < 10 then [DigitChar(n)] else NatToString(n / 10) + [DigitChar(n % 10)]
  }

  /** What `stream << i_val` writes for an `int`. */
  function IntToString(n: int): string {
    if n < 0 then "-" + NatToString(-n) else NatToString(n)
  }

  predicate AllDigits(s: string) {
    forall k :: 0 <= k < |s| ==> IsDigit(s[k])
  }

  /** The longest prefix of `s` made of digits. */
  function LeadingDigits(s: string): (r: string)
    ensures |r| <= |s| && r == s[..|r|] && AllDigits(r)
    ensures |r| < |s| ==> !IsDigit(s[|r|])
  {
    if |s| > 0 && IsDigit(s[0]) then [s[0]] + LeadingDigits(s[1..]) else ""
  }

  /** Value of a digit string read left to right, as `atoi` accumulates it. */
  function DecimalValue(digits: string): nat
    requires AllDigits(digits)
    decreases |digits|
  {
    if |digits| == 0 then 0
    else 10 * DecimalValue(digits[..|digits| - 1]) + DigitValue(digits[|digits| - 1])
  }

  /** `atoi` on a token whose first character satisfies `isNum` but that has no `.`:
      an optional `-`, then the longest run of digits. (Such a token never starts with
      blank space or `+`, so that part of `atoi` is not reached.) The mathematical value is
      returned; whether it fits an `int` is for the caller to decide. */
  function Atoi(s: string): int {
    if |s| > 0 && s[0] == '-' then -(DecimalValue(LeadingDigits(s[1..]) ) as int)
    else DecimalValue(LeadingDigits(s))
  }

  lemma {:induction false} NatToStringDigits(n: nat)
    ensures |NatToString(n)| > 0 && AllDigits(NatToString(n))
    ensures DecimalValue(NatToString(n)) == n
    decreases n
  {
    if n >= 10 {
      NatToStringDigits(n / 10);
      var r := NatToString(n);
      assert r[..|r| - 1] == NatToString(n / 10);
    }
  }

  lemma {:induction false} LeadingDigitsOfDigits(s: string)
    requires AllDigits(s)
    ensures LeadingDigits(s) == s
    decreases |s|
  {
    if |s| > 0 {
      LeadingDigitsOfDigits(s[1..]);
    }
  }

  /** `atoi` reads back what `stream << n` writes, for every `int`. */
  lemma AtoiIntToString(n: Int32)
    ensures Atoi(IntToString(n)) == n
  {
    var m: nat := if n < 0 then -(n as int) else n;
    NatToStringDigits(m);
    LeadingDigitsOfDigits(NatToString(m));
    if n < 0 {
      assert IntToString(n)[1..] == NatToString(m);
    } else {
      assert IntToString(n)[0] != '-';
    }
  }

  /** The decimal text of an integer starts with a digit or `-`, never holds a `.`,
      and is otherwise made of digits. */
  lemma IntToStringShape(n: int)
    ensures var r := IntToString(n);
      |r| > 0 && (r[0] == '-' || IsDigit(r[0])) &&
      (forall k :: 0 <= k < |r| ==> IsDigit(r[k]) || r[k] == '-')
  {
    var m: nat := if n < 0 then -n else n;
    NatToStringDigits(m);
  }

  // ---------------------------------------------------------------------------
  // Strings built by the serializer

  /** `n` copies of `t` in a row. */
  function Repeat(t: string, n: nat): string {
    if n == 0 then "" else Repeat(t, n - 1) + t
  }

  function Spaces(n: nat): (r: string)
    ensures |r| == n && forall k :: 0 <= k < n ==> r[k] == ' '
  {
    seq(n, _ => ' ')
  }

  /** Repeating a tab of `w` spaces `d` times gives `d * w` spaces. */
  lemma {:induction false} RepeatSpaces(w: nat, d: nat)
    ensures Repeat(Spaces(w), d) == Spaces(d * w)
  {
    if d > 0 {
      RepeatSpaces(w, d - 1);
      assert d * w == (d - 1) * w + w;
    }
  }

  /** Parts joined with `sep` between consecutive parts. */
  function Join(parts: seq<string>, sep: string): string {
    if |parts| == 0 then ""
    else if |parts| == 1 then parts[0]
    else Join(parts[..|parts| - 1], sep) + sep + parts[|parts| - 1]
  }

  /** Each part followed by `sep`: what the C++ writes into `sec_stream`. */
  function Terminated(parts: seq<string>, sep: string): string {
    if |parts| == 0 then "" else Terminated(parts[..|parts| - 1], sep) + parts[|parts| - 1] + sep
  }

  /** One more part written out, followed by the separator. */
  lemma TerminatedStep(parts: seq<string>, k: nat, sep: string)
    requires k < |parts|
    ensures Terminated(parts[..k + 1], sep) == Terminated(parts[..k], sep) + parts[k] + sep
  {
    assert parts[..k + 1][..k] == parts[..k];
  }

  /** `s.substr(0, s.length() - n)` with the unsigned wrap-around of `length() - n`:
      when `n` exceeds the length the count is huge and the whole string is kept. */
  function TrimEnd(s: string, n: nat): string {
    if |s| >= n then s[..|s| - n] else s
  }

  lemma {:induction false} TerminatedIsJoinPlusSep(parts: seq<string>, sep: string)
    requires |parts| > 0
    ensures Terminated(parts, sep) == Join(parts, sep) + sep
    decreases |parts|
  {
    if |parts| > 1 {
      TerminatedIsJoinPlusSep(parts[..|parts| - 1], sep);
      assert parts[..|parts| - 1][..|parts| - 2] == parts[..|parts| - 2];
    }
  }

  /** Trimming the last separator off the terminated parts leaves the parts joined by the
      separator, so the output never has a trailing separator; no parts give "". */
  lemma TrimTerminated(parts: seq<string>, sep: string)
    ensures TrimEnd(Terminated(parts, sep), |sep|) == Join(parts, sep)
  {
    if |parts| > 0 {
      TerminatedIsJoinPlusSep(parts, sep);
      var j := Join(parts, sep);
      assert (j + sep)[..|j + sep| - |sep|] == j;
    }
  }

  /** Join read from the front: the first part, the separator, the rest joined. */
  lemma {:induction false} JoinFront(parts: seq<string>, sep: string)
    requires |parts| >= 2
    ensures Join(parts, sep) == parts[0] + sep + Join(parts[1..], sep)
    decreases |parts|
  {
    if |parts| > 2 {
      JoinFront(parts[..|parts| - 1], sep);
      assert parts[..|parts| - 1][1..] == parts[1..][..|parts| - 2];
      assert parts[..|parts| - 1][0] == parts[0];
    } else {
      assert parts[1..] == [parts[1]];
      assert parts[..1] == [parts[0]];
    }
  }
}
