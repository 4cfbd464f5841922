/**
 * Time and integer conventions shared by the CronJob controller model.
 *
 * Times are whole Unix seconds. Go's zero `time.Time` (January 1 of year 1,
 * UTC) is an instant like any other, so it is kept as the number of seconds it
 * stands for rather than collapsed onto the Unix epoch.
 */
module CronTime {
  import opened Wrappers

  /** Go's `time.Time{}` in Unix seconds; `IsZero()` compares against it. */
  const ZeroTime: int := -62135596800

  const TwoTo31: int := 0x8000_0000
  const TwoTo32: int := 0x1_0000_0000

  newtype int32 = x: int | -0x8000_0000 <= x < 0x8000_0000

  /** Two's-complement truncation to 32 bits, as Go's `int32(x)` conversion does. */
  function Wrap32(x: int): (r: int32)
    ensures -TwoTo31 <= x < TwoTo31 ==> r as int == x
    ensures (x - r as int) % TwoTo32 == 0
  {
    ((x + TwoTo31) % TwoTo32 - TwoTo31) as int32
  }

  /** The decimal digits of `n`, most significant first, as `fmt`'s `%d` prints them. */
  function Digits(n: nat): (s: string)
    ensures |s| >= 1
    ensures forall i :: 0 <= i < |s| ==> '0' <= s[i] <= '9'
    ensures (n < 10) == (|s| == 1)
  {
    if n < 10 then [DigitChar(n)] else Digits(n / 10) + [DigitChar(n % 10)]
  }

  function DigitChar(d: nat): (c: char)
    requires d < 10
    ensures '0' <= c <= '9' && c as int - '0' as int == d
  {
    ('0' as int + d) as char
  }

  /** `fmt.Sprintf("%d", n)` for a signed integer. */
  function DecimalString(n: int): (s: string)
    ensures |s| >= 1 && (s[0] == '-' <==> n < 0)
  {
    if n < 0 then "-" + Digits(-n) else Digits(n)
  }

  lemma {:induction false} DigitsInjective(a: nat, b: nat)
    requires Digits(a) == Digits(b)
    ensures a == b
  {
    var s := Digits(a);
    if a < 10 || b < 10 {
      // both have one digit, so both are that digit
      assert s[0] as int - '0' as int == a;
    } else {
      assert s[|s| - 1] == DigitChar(a % 10) == DigitChar(b % 10);
      assert s[..|s| - 1] == Digits(a / 10) == Digits(b / 10);
      DigitsInjective(a / 10, b / 10);
    }
  }

  /** Distinct integers print differently: `%d` is injective. */
  lemma DecimalStringInjective(a: int, b: int)
    requires DecimalString(a) == DecimalString(b)
    ensures a == b
  {
    if a < 0 && b < 0 {
      assert Digits(-a) == DecimalString(a)[1..] == Digits(-b);
      DigitsInjective(-a, -b);
    } else if a >= 0 && b >= 0 {
      DigitsInjective(a, b);
    }
    // otherwise one string starts with '-' and the other with a digit
  }

  /**
   * Go's `time.Time.Format(time.RFC3339)` and `time.Parse(time.RFC3339, _)`,
   * restricted to whole-second UTC times: an injected pair, since the date
   * grammar of RFC 3339 (section 5.6) belongs to Go's `time` package.
   */
  datatype TimePair = TimePair(format: int -> string, parse: string -> Option<int>)

  /**
   * A codec for RFC 3339 text. The empty string is not a date-time in the
   * grammar of section 5.6 of RFC 3339, so parsing it fails, as
   * `time.Parse(time.RFC3339, "")` does.
   */
  type TimeCodec = c: TimePair | c.parse("") == None witness TimePair(t => "", s => None)

  /** Parsing what was formatted gives back the same instant. */
  ghost predicate RoundTrips(codec: TimeCodec)
  {
    forall t :: codec.parse(codec.format(t)) == Some(t)
  }
}
