/** The grpc-timeout header (section "Requests" of gRPC over HTTP2): at most eight digits and a unit. */
module GrpcTimeout {
  import opened Arith
  import opened Bytes

  /** The largest time.Duration, in nanoseconds. */
  const MAX_DURATION: int := 0x7fff_ffff_ffff_ffff
  const MAX_VALUE: int := 99_999_999

  datatype Unit = Nanosecond | Microsecond | Millisecond | Second | Minute | Hour

  function Size(u: Unit): int {
    match u
    case Nanosecond => 1
    case Microsecond => 1_000
    case Millisecond => 1_000_000
    case Second => 1_000_000_000
    case Minute => 60_000_000_000
    case Hour => 3_600_000_000_000
  }

  function Suffix(u: Unit): char {
    match u
    case Nanosecond => 'n'
    case Microsecond => 'u'
    case Millisecond => 'm'
    case Second => 'S'
    case Minute => 'M'
    case Hour => 'H'
  }

  function UnitOf(c: char): Option<Unit> {
    if c == 'H' then Some(Hour) else if c == 'M' then Some(Minute) else if c == 'S' then Some(Second)
    else if c == 'm' then Some(Millisecond) else if c == 'u' then Some(Microsecond)
        else if c == 'n' then Some(Nanosecond)
    else None
  }

  predicate IsDigit(c: char) {
    '0' <= c <= '9'
  }

  predicate AllDigits(s: string) {
    forall i :: 0 <= i < |s| ==> IsDigit(s[i])
  }

  function ParseDigits(s: string): nat
    requires AllDigits(s)
  {
    if s == "" then 0 else 10 * ParseDigits(s[..|s| - 1]) + (s[|s| - 1] as int - '0' as int)
  }

  function FormatDigits(n: nat): (s: string)
    ensures s != "" && AllDigits(s)
  {
    var digit := ['0' + (n % 10) as char];
    if n < 10 then digit else FormatDigits(n / 10) + digit
  }

  /** The decoder; the relative deadline saturates at the largest duration. */
  function Timeout(value: string): (r: Option<int>)
    ensures r.Some? ==> 0 <= r.value <= MAX_DURATION
  {
    if |value| < 2 || |value| > 9 then None else
      var digits, unit := value[..|value| - 1], UnitOf(value[|value| - 1]);
      if !AllDigits(digits) || unit.None? then None else
        var n := ParseDigits(digits);
        if n > MAX_DURATION / Size(unit.value) then Some(MAX_DURATION)
        else
          SizeProduct(n, unit.value);
          Some(n * Size(unit.value))
  }

  lemma SizeProduct(n: nat, u: Unit)
    requires n <= MAX_DURATION / Size(u)
    ensures 0 <= n * Size(u) <= MAX_DURATION
  {
  }

  /** Units needed to cover `d`, rounding up. */
  function Covering(d: int, u: Unit): int
    requires d > 0
  {
    d / Size(u) + if d % Size(u) != 0 then 1 else 0
  }

  const UNITS := [Nanosecond, Microsecond, Millisecond, Second, Minute, Hour]

  /** The encoder over the units from `i` on; running out of units is the source's panic. */
  function HeaderFrom(d: int, i: nat): Option<string>
    requires d > 0 && i <= 6
    decreases 6 - i
  {
    if i == 6 then None
    else if 0 <= Covering(d, UNITS[i]) <= MAX_VALUE then Some(FormatDigits(Covering(d, UNITS[i])) + [Suffix(UNITS[i])])
    else HeaderFrom(d, i + 1)
  }

  function AtLeastOne(duration: int): int {
    if duration < 1 then 1 else duration
  }

  function TimeoutHeader(duration: int): Option<string> {
    HeaderFrom(AtLeastOne(duration), 0)
  }

  lemma {:induction false} ParseFormat(n: nat)
    ensures ParseDigits(FormatDigits(n)) == n
  {
    var digit := '0' + (n % 10) as char;
    assert digit as int - '0' as int == n % 10;
    if n >= 10 {
      ParseFormat(n / 10);
      assert FormatDigits(n)[..|FormatDigits(n)| - 1] == FormatDigits(n / 10);
    } else {
      assert FormatDigits(n)[..0] == "";
    }
  }

  function Pow10(k: nat): nat {
    if k == 0 then 1 else 10 * Pow10(k - 1)
  }

  lemma {:induction false} FormatLength(n: nat, k: nat)
    requires k > 0 && n < Pow10(k)
    ensures |FormatDigits(n)| <= k
  {
    if n < 10 {
    } else {
      if k > 1 {
        FormatLength(n / 10, k - 1);
      }
    }
  }

  lemma UnitInverse(u: Unit)
    ensures UnitOf(Suffix(u)) == Some(u)
  {
  }

  /** What a printed value and unit decode to. */
  lemma TimeoutOfPrinted(n: nat, u: Unit)
    requires n <= MAX_VALUE
    ensures Timeout(FormatDigits(n) + [Suffix(u)])
            == Some(if n > MAX_DURATION / Size(u) then MAX_DURATION else n * Size(u))
  {
    var value := FormatDigits(n) + [Suffix(u)];
    assert Pow10(4) == 10_000;
    assert Pow10(8) == 100_000_000;
    FormatLength(n, 8);
    ParseFormat(n);
    UnitInverse(u);
    assert value[..|value| - 1] == FormatDigits(n);
  }

  /** What the letters mean, in nanoseconds. */
  lemma {:induction false} LettersMean(n: nat)
    requires n <= 99_999_999
    ensures Timeout(FormatDigits(n) + "H") == Some(Saturate(n * 3_600_000_000_000))
    ensures Timeout(FormatDigits(n) + "M") == Some(n * 60_000_000_000)
    ensures Timeout(FormatDigits(n) + "S") == Some(n * 1_000_000_000)
    ensures Timeout(FormatDigits(n) + "m") == Some(n * 1_000_000)
    ensures Timeout(FormatDigits(n) + "u") == Some(n * 1_000)
    ensures Timeout(FormatDigits(n) + "n") == Some(n)
  {
    TimeoutOfPrinted(n, Hour);
    TimeoutOfPrinted(n, Minute);
    TimeoutOfPrinted(n, Second);
    TimeoutOfPrinted(n, Millisecond);
    TimeoutOfPrinted(n, Microsecond);
    TimeoutOfPrinted(n, Nanosecond);
  }

  /** A header is accepted exactly if it has one to eight digits and one of the six letters. */
  lemma {:induction false} AcceptedExactly(value: string)
    ensures Timeout(value).Some? <==>
            && 2 <= |value| <= 9
            && (forall i :: 0 <= i < |value| - 1 ==> '0' <= value[i] <= '9')
            && value[|value| - 1] in {'H', 'M', 'S', 'm', 'u', 'n'}
  {
  }

  /** The finest unit, from the `i`-th on, whose value still has eight digits. */
  function ChosenFrom(d: int, i: nat): (k: nat)
    requires d > 0 && i < 6
    ensures i <= k < 6 && (forall j :: i <= j < k ==> Covering(d, UNITS[j]) > MAX_VALUE)
    ensures k < 5 ==> Covering(d, UNITS[k]) <= MAX_VALUE
    decreases 6 - i
  {
    if i == 5 || Covering(d, UNITS[i]) <= MAX_VALUE then i else ChosenFrom(d, i + 1)
  }

  function Chosen(d: int): Unit
    requires d > 0
  {
    UNITS[ChosenFrom(d, 0)]
  }

  lemma {:induction false} HeaderFromChosen(d: int, i: nat)
    requires 0 < d && Covering(d, Hour) <= MAX_VALUE && i < 6
    ensures var u := UNITS[ChosenFrom(d, i)];
            0 <= Covering(d, u) <= MAX_VALUE && HeaderFrom(d, i) == Some(FormatDigits(Covering(d, u)) + [Suffix(u)])
    decreases 6 - i
  {
    CoveringPositive(d, UNITS[i]);
    if i < 5 && Covering(d, UNITS[i]) > MAX_VALUE {
      HeaderFromChosen(d, i + 1);
    }
  }

  lemma CoveringPositive(d: int, u: Unit)
    requires d > 0
    ensures Covering(d, u) > 0
  {
  }

  lemma {:induction false} EveryUnit(u: Unit)
    ensures exists j :: 0 <= j < 6 && UNITS[j] == u
  {
    assert UNITS[0] == Nanosecond && UNITS[1] == Microsecond && UNITS[2] == Millisecond;
    assert UNITS[3] == Second && UNITS[4] == Minute && UNITS[5] == Hour;
  }

  lemma {:induction false} SizesGrow(i: nat, j: nat)
    requires i < 6 && j < 6 && Size(UNITS[j]) < Size(UNITS[i])
    ensures j < i
  {
  }

  /** Up to the largest duration the hour value always fits, so the encoder never panics. */
  lemma HeaderOfChosen(d: int)
    requires 0 < d <= MAX_DURATION
    ensures 0 < Covering(d, Chosen(d)) <= 99_999_999
    ensures forall u: Unit :: Size(u) < Size(Chosen(d)) ==> Covering(d, u) > 99_999_999
    ensures HeaderFrom(d, 0) == Some(FormatDigits(Covering(d, Chosen(d))) + [Suffix(Chosen(d))])
  {
    HeaderFromChosen(d, 0);
    CoveringPositive(d, Chosen(d));
    forall u: Unit | Size(u) < Size(Chosen(d))
      ensures Covering(d, u) > 99_999_999
    {
      var j :| 0 <= j < 6 && UNITS[j] == u by { EveryUnit(u); }
      SizesGrow(ChosenFrom(d, 0), j);
    }
  }

  function Saturate(x: int): int {
    if x > MAX_DURATION then MAX_DURATION else x
  }

  /** The deadline the next hop sees. */
  function Relayed(d: int): (r: int)
    requires d > 0
    ensures r > 0
  {
    CoveringBounds(d, Chosen(d));
    Saturate(Covering(d, Chosen(d)) * Size(Chosen(d)))
  }

  lemma OverflowsBy(n: nat, u: Unit)
    ensures n > MAX_DURATION / Size(u) <==> n * Size(u) > MAX_DURATION
  {
  }

  /** Closure: every header the encoder emits is accepted, and means the relayed deadline. */
  lemma RoundTrip(duration: int)
    requires duration <= MAX_DURATION
    ensures TimeoutHeader(duration).Some?
    ensures Timeout(TimeoutHeader(duration).value) == Some(Relayed(AtLeastOne(duration)))
  {
    var d := AtLeastOne(duration);
    HeaderOfChosen(d);
    TimeoutOfPrinted(Covering(d, Chosen(d)), Chosen(d));
    OverflowsBy(Covering(d, Chosen(d)), Chosen(d));
  }

  lemma CoveringBounds(d: int, u: Unit)
    requires d > 0
    ensures d <= Covering(d, u) * Size(u) < d + Size(u)
  {
  }

  /** The relayed deadline is never shorter than asked and less than one chosen unit longer. */
  lemma NeverShorter(d: int)
    requires 0 < d <= MAX_DURATION
    ensures d <= Relayed(d) < d + Size(Chosen(d)) && Relayed(d) <= MAX_DURATION
  {
    CoveringBounds(d, Chosen(d));
  }

  lemma CoveringMonotone(a: int, b: int, u: Unit)
    requires 0 < a <= b
    ensures Covering(a, u) * Size(u) <= Covering(b, u) * Size(u) && Covering(a, u) <= Covering(b, u)
  {
  }

  /**
   * Units are chosen from fine to coarse: a longer duration that chooses another unit exceeds what the finer one can
   * say.
   */
  lemma FitsChosen(a: int, b: int)
    requires 0 < a <= b <= MAX_DURATION && Chosen(a) != Chosen(b)
    ensures Covering(a, Chosen(a)) * Size(Chosen(a)) <= MAX_VALUE * Size(Chosen(a)) <= b
  {
    HeaderOfChosen(a);
    HeaderOfChosen(b);
    var i, j := ChosenFrom(a, 0), ChosenFrom(b, 0);
    CoveringMonotone(a, b, UNITS[j]);
    assert i < j;
    Exceeds(b, UNITS[i]);
    Scaled(Covering(a, UNITS[i]), UNITS[i]);
  }

  lemma Scaled(n: int, u: Unit)
    requires n <= MAX_VALUE
    ensures n * Size(u) <= MAX_VALUE * Size(u)
  {
  }

  lemma Exceeds(d: int, u: Unit)
    requires d > 0 && Covering(d, u) > MAX_VALUE
    ensures MAX_VALUE * Size(u) <= d
  {
  }

  lemma Monotone(a: int, b: int)
    requires 0 < a <= b <= MAX_DURATION
    ensures Relayed(a) <= Relayed(b)
  {
    CoveringBounds(b, Chosen(b));
    if Chosen(a) == Chosen(b) {
      CoveringMonotone(a, b, Chosen(a));
    } else {
      FitsChosen(a, b);
    }
  }

  /** How many of unit `j` make one of the coarser unit `i`. */
  function Ratio(i: nat, j: nat): nat
    requires j <= i < 6
  {
    if i == j then 1 else (if i <= 3 then 1000 else 60) * Ratio(i - 1, j)
  }

  lemma {:induction false} RatioScales(i: nat, j: nat)
    requires j <= i < 6
    ensures Ratio(i, j) * Size(UNITS[j]) == Size(UNITS[i])
  {
    if i == j {
    } else {
      RatioScales(i - 1, j);
    }
  }

  /** Every unit is a whole multiple of each finer one. */
  lemma FinerDivides(n: nat, i: nat, j: nat)
    requires j <= i < 6
    ensures (n * Size(UNITS[i])) % Size(UNITS[j]) == 0
  {
    RatioScales(i, j);
    var r, k := Ratio(i, j), Size(UNITS[j]);
    assert n * (r * k) == (n * r) * k;
    Quotient(n * r, 0, k);
  }

  lemma ExactCovering(d: int, u: Unit)
    requires d > 0 && d % Size(u) == 0
    ensures Covering(d, u) * Size(u) == d
  {
  }

  lemma CoveringOfMultiple(n: int, u: Unit)
    requires n > 0
    ensures n * Size(u) > 0 && Covering(n * Size(u), u) == n
  {
  }

  /** A whole multiple of a unit is relayed unchanged: whichever finer unit it chooses covers it exactly. */
  lemma WholeMultiple(n: int, i: nat)
    requires 0 < n <= MAX_VALUE && i < 6 && n * Size(UNITS[i]) <= MAX_DURATION
    ensures n * Size(UNITS[i]) > 0 && Relayed(n * Size(UNITS[i])) == n * Size(UNITS[i])
  {
    CoveringOfMultiple(n, UNITS[i]);
    var d := n * Size(UNITS[i]);
    var j := ChosenFrom(d, 0);
    assert j <= i;
    FinerDivides(n, i, j);
    ExactCovering(d, UNITS[j]);
  }

  /** A second hop changes nothing more, also when the deadline is saturated. */
  lemma Idempotent(d: int)
    requires 0 < d <= MAX_DURATION
    ensures Relayed(Relayed(d)) == Relayed(d)
  {
    NeverShorter(d);
    HeaderOfChosen(d);
    var i := ChosenFrom(d, 0);
    var n := Covering(d, UNITS[i]);
    if n * Size(UNITS[i]) <= MAX_DURATION {
      WholeMultiple(n, i);
    } else {
      NeverShorter(MAX_DURATION);
    }
  }
}
