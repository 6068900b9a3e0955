/** The parts of java.lang that the notification pipeline and the user service
    lean on: String.trim().isEmpty(), String.contains, the 32-bit `int`
    arithmetic of String.hashCode and Objects.hash, Long.toString, and the
    exceptions the core throws and catches. */
module JavaLang {
  import opened Wrappers

  // ---------------------------------------------------------------------------
  // Blank strings

  /** `s.trim().isEmpty()`: String.trim strips every character up to U+0020
      from both ends, so a string is blank when all its characters are such. */
  predicate Blank(s: string) {
    forall i :: 0 <= i < |s| ==> s[i] <= ' '
  }

  /** `s == null || s.trim().isEmpty()` */
  predicate NullOrBlank(s: Option<string>) {
    s.None? || Blank(s.value)
  }

  /** The leading loop of String.trim: drop characters up to U+0020 from the front. */
  function TrimStart(s: string): (r: string)
    ensures |r| <= |s| && r == s[|s| - |r|..]
    ensures r != [] ==> r[0] > ' '
  {
    if s != [] && s[0] <= ' ' then TrimStart(s[1..]) else s
  }

  /** The trailing loop of String.trim: drop characters up to U+0020 from the back. */
  function TrimEnd(s: string): (r: string)
    ensures |r| <= |s| && r == s[..|r|]
    ensures r != [] ==> r[|r| - 1] > ' '
  {
    if s != [] && s[|s| - 1] <= ' ' then TrimEnd(s[..|s| - 1]) else s
  }

  /** String.trim: what is left is empty or starts and ends with a character above U+0020. */
  function Trim(s: string): (r: string)
    ensures |r| <= |s|
    ensures r != [] ==> r[0] > ' ' && r[|r| - 1] > ' '
  {
    var t := TrimStart(s);
    var r := TrimEnd(t);
    assert r != [] ==> r[0] == t[0];
    r
  }

  lemma {:induction false} TrimStartEmptyIffBlank(s: string)
    ensures TrimStart(s) == [] <==> Blank(s)
  {
    if s != [] {
      if s[0] <= ' ' {
        TrimStartEmptyIffBlank(s[1..]);
        assert Blank(s) <==> Blank(s[1..]) by {
          if Blank(s[1..]) {
            forall i | 0 <= i < |s| ensures s[i] <= ' ' {
              if i > 0 { assert s[i] == s[1..][i - 1]; }
            }
          }
        }
      } else {
        assert !Blank(s) by { assert s[0] > ' '; }
      }
    }
  }

  lemma {:induction false} TrimEndEmptyOnlyIfBlank(s: string)
    requires TrimEnd(s) == []
    ensures Blank(s)
  {
    if s != [] {
      var p := s[..|s| - 1];
      TrimEndEmptyOnlyIfBlank(p);
      forall i | 0 <= i < |s| ensures s[i] <= ' ' {
        if i < |s| - 1 { assert s[i] == p[i]; }
      }
    }
  }

  lemma BlankTrimmedIsEmpty(t: string)
    requires t != [] ==> t[0] > ' '
    requires Blank(t)
    ensures t == []
  {
  }

  /** `trim().isEmpty()` holds exactly of the blank strings. */
  lemma TrimEmptyIffBlank(s: string)
    ensures Trim(s) == [] <==> Blank(s)
  {
    TrimStartEmptyIffBlank(s);
    var t := TrimStart(s);
    if Trim(s) == [] {
      TrimEndEmptyOnlyIfBlank(t);
      BlankTrimmedIsEmpty(t);
    }
  }

  /** `s == null || s.trim().isEmpty()`, computed as Java computes it. */
  function NullOrTrimEmpty(s: Option<string>): (r: bool)
    ensures r <==> NullOrBlank(s)
  {
    s.None? || (TrimEmptyIffBlank(s.value); Trim(s.value) == [])
  }

  /** `s.contains("@")` */
  predicate ContainsAt(s: string) {
    '@' in s
  }

  // ---------------------------------------------------------------------------
  // 32-bit int arithmetic

  const TwoTo31: int := 0x8000_0000
  const TwoTo32: int := 0x1_0000_0000

  predicate IsInt32(x: int) {
    -TwoTo31 <= x < TwoTo31
  }

  /** The two's complement wrap-around of Java `int` arithmetic. */
  function WrapInt32(x: int): (r: int)
    ensures IsInt32(r)
    ensures (x - r) % TwoTo32 == 0
    ensures IsInt32(x) ==> r == x
  {
    var m := x % TwoTo32;
    if m < TwoTo31 then m else m - TwoTo32
  }

  lemma ModUnique(x: int, q: int, r: int)
    requires x == q * TwoTo32 + r && 0 <= r < TwoTo32
    ensures x % TwoTo32 == r
  {
  }

  /** Adding a multiple of 2^32 does not change the wrapped value. */
  lemma WrapShift(y: int, j: int)
    ensures WrapInt32(y + j * TwoTo32) == WrapInt32(y)
  {
    ModUnique(y + j * TwoTo32, y / TwoTo32 + j, y % TwoTo32);
  }

  /** Wrapping an intermediate result of `a * c + d` does not change the final wrap. */
  lemma WrapMulAdd(a: int, c: int, d: int)
    ensures WrapInt32(WrapInt32(a) * c + d) == WrapInt32(a * c + d)
  {
    var w := WrapInt32(a);
    var k := (a - w) / TwoTo32;
    assert a - w == k * TwoTo32;
    calc {
      a * c + d;
      (w + k * TwoTo32) * c + d;
      w * c + d + (k * c) * TwoTo32;
    }
    WrapShift(w * c + d, k * c);
  }

  /** The accumulation `h = 31 * h + x` on `int`, shared by String.hashCode
      (starting from 0) and Arrays.hashCode / Objects.hash (starting from 1). */
  function HashFold(h: int, xs: seq<int>): (r: int)
    ensures xs != [] || IsInt32(h) ==> IsInt32(r)
    decreases |xs|
  {
    if xs == [] then h else HashFold(WrapInt32(31 * h + xs[0]), xs[1..])
  }

  function Pow31(n: nat): int
  {
    if n == 0 then 1 else 31 * Pow31(n - 1)
  }

  /** The closed form the Javadoc of String.hashCode gives:
      xs[0]*31^(n-1) + xs[1]*31^(n-2) + ... + xs[n-1]. */
  function PolySum(xs: seq<int>): int
  {
    if xs == [] then 0 else xs[0] * Pow31(|xs| - 1) + PolySum(xs[1..])
  }

  /** The wrapping fold computes the closed-form polynomial modulo 2^32. */
  lemma {:induction false} HashFoldClosedForm(h: int, xs: seq<int>)
    requires IsInt32(h)
    ensures HashFold(h, xs) == WrapInt32(h * Pow31(|xs|) + PolySum(xs))
    decreases |xs|
  {
    if xs != [] {
      var t := xs[1..];
      var p := Pow31(|t|);
      var a := 31 * h + xs[0];
      assert Pow31(|xs|) == 31 * p;
      assert PolySum(xs) == xs[0] * p + PolySum(t);
      calc {
        HashFold(h, xs);
        HashFold(WrapInt32(a), t);
        { HashFoldClosedForm(WrapInt32(a), t); }
        WrapInt32(WrapInt32(a) * p + PolySum(t));
        { WrapMulAdd(a, p, PolySum(t)); }
        WrapInt32(a * p + PolySum(t));
        { HornerStep(h, xs[0], p); }
        WrapInt32(h * Pow31(|xs|) + PolySum(xs));
      }
    }
  }

  lemma HornerStep(h: int, x: int, p: int)
    ensures (31 * h + x) * p == h * (31 * p) + x * p
  {
  }

  /** The characters of a string as the numbers String.hashCode adds up. */
  function Codes(s: string): (r: seq<int>)
    ensures |r| == |s|
    ensures forall i :: 0 <= i < |s| ==> r[i] == s[i] as int
  {
    seq(|s|, i requires 0 <= i < |s| => s[i] as int)
  }

  /** String.hashCode */
  function StringHash(s: string): int
  {
    HashFold(0, Codes(s))
  }

  /** String.hashCode agrees with its documented formula s[0]*31^(n-1) + ... + s[n-1], wrapped to int. */
  lemma StringHashIsPolynomial(s: string)
    ensures StringHash(s) == WrapInt32(PolySum(Codes(s)))
  {
    HashFoldClosedForm(0, Codes(s));
  }

  /** Objects.hashCode: 0 for null. */
  function NullableStringHash(s: Option<string>): int
  {
    if s.None? then 0 else StringHash(s.value)
  }

  // ---------------------------------------------------------------------------
  // Long.toString

  predicate IsDigit(c: char)
  {
    '0' <= c <= '9'
  }

  /** The value of a decimal digit character. */
  function DigitValue(c: char): int
  {
    c as int - '0' as int
  }

  function DigitChar(d: int): (c: char)
    requires 0 <= d < 10
    ensures IsDigit(c) && DigitValue(c) == d
  {
    ('0' as int + d) as char
  }

  /** The number a string of decimal digits denotes, most significant digit first. */
  function DecimalValue(s: string): int
    decreases |s|
  {
    if s == [] then 0 else 10 * DecimalValue(s[..|s| - 1]) + DigitValue(s[|s| - 1])
  }

  /** A string denotes a number the way Long.parseLong reads it: an optional minus sign, then digits. */
  function SignedDecimalValue(s: string): int
  {
    if s != [] && s[0] == '-' then -DecimalValue(s[1..]) else DecimalValue(s)
  }

  function NaturalToString(n: nat): (r: string)
    ensures r != [] && r[0] != '-'
    decreases n
  {
    if n < 10 then [DigitChar(n)] else NaturalToString(n / 10) + [DigitChar(n % 10)]
  }

  /** NaturalToString writes the decimal digits of `n`, without leading zeros. */
  lemma {:induction false} NaturalToStringIsDecimal(n: nat)
    ensures forall i :: 0 <= i < |NaturalToString(n)| ==> IsDigit(NaturalToString(n)[i])
    ensures DecimalValue(NaturalToString(n)) == n
    ensures NaturalToString(n)[0] == '0' ==> n == 0 && NaturalToString(n) == "0"
    decreases n
  {
    var r := NaturalToString(n);
    if n < 10 {
      assert r[..|r| - 1] == [];
    } else {
      var q := NaturalToString(n / 10);
      NaturalToStringIsDecimal(n / 10);
      assert r == q + [DigitChar(n % 10)];
      assert r[..|r| - 1] == q;
      assert r[0] == q[0];
      assert DecimalValue(r) == 10 * (n / 10) + n % 10;
    }
  }

  /** The decimal text of a `long`, as string concatenation renders it. */
  function LongToString(n: int): (r: string)
    ensures r != []
    ensures (r[0] == '-') <==> n < 0
  {
    if n < 0 then "-" + NaturalToString(-n) else NaturalToString(n)
  }

  /** LongToString is the canonical decimal form of `n`: reading it back gives
      `n`, every character after an optional minus sign is a digit, and there is
      no leading zero except in "0" itself. */
  lemma LongToStringIsDecimal(n: int)
    ensures SignedDecimalValue(LongToString(n)) == n
    ensures var digits := if n < 0 then LongToString(n)[1..] else LongToString(n);
            && digits != []
            && (forall i :: 0 <= i < |digits| ==> IsDigit(digits[i]))
            && (digits[0] == '0' ==> n == 0 && digits == "0")
  {
    var r := LongToString(n);
    if n < 0 {
      NaturalToStringIsDecimal(-n);
      assert r[1..] == NaturalToString(-n);
    } else {
      NaturalToStringIsDecimal(n);
    }
  }

  // ---------------------------------------------------------------------------
  // java.time.LocalDateTime

  /** A reading of the clock. LocalDateTime.now() is never called inside the
      model: the reading is passed in by the caller. */
  datatype LocalDateTime = LocalDateTime(instant: int)

  // ---------------------------------------------------------------------------
  // Exceptions

  /** The exceptions the core throws or catches. A mail transport failure is
      Spring's MailException; RuntimeException keeps the exception it wraps. */
  datatype Exception =
    | IllegalArgumentException(message: string)
    | NullPointerException
    | MailException(message: string)
    | RuntimeException(message: string, cause: Exception)

  /** Throwable.getMessage: the null pointer raised by a switch over a null enum carries no message here. */
  function GetMessage(e: Exception): Option<string>
  {
    match e
    case IllegalArgumentException(m) => Some(m)
    case NullPointerException => None
    case MailException(m) => Some(m)
    case RuntimeException(m, _) => Some(m)
  }

  /** String concatenation renders null as "null". */
  function ConcatText(s: Option<string>): string
  {
    if s.None? then "null" else s.value
  }
}
