/**
 How a duration is written: `std::to_string(std::chrono::nanoseconds)` of
 src/Util/Logging.cpp, next to a reader for the text it writes.
 */
module Duration {
  import opened Text
  import opened Tokeniser

  const MS: int := 1_000_000
  const SEC: int := 1000 * MS
  const MIN: int := 60 * SEC
  const HOUR: int := 60 * MIN
  const DAY: int := 24 * HOUR

  /** `duration_cast` to a coarser unit: division that truncates toward zero. */
  function Cast(ns: int, unit: int): int
    requires unit > 0
  {
    if ns < 0 then -(-ns / unit) else ns / unit
  }

  // ---------- The text ----------

  datatype Parts = Parts(d: int, h: int, m: int, s: int, ms: int)

  /** The mixed-radix digits of a number of milliseconds; those of a negative number are negative. */
  function Digits5(t: int): Parts {
    if t < 0 then Negated(Radix(-t)) else Radix(t)
  }

  function Negated(p: Parts): Parts { Parts(-p.d, -p.h, -p.m, -p.s, -p.ms) }

  function Radix(t: nat): Parts {
    var s := t / 1000;
    var m := s / 60;
    var h := m / 60;
    Parts(h / 24, h % 24, m % 60, s % 60, t % 1000)
  }

  /** `setw(2)` with fill '0'. */
  function Padded(n: int): string {
    if |Decimal(n)| < 2 then "0" + Decimal(n) else Decimal(n)
  }

  function AllPadded(cs: seq<int>): seq<string> {
    if |cs| == 0 then [] else [Padded(cs[0])] + AllPadded(cs[1..])
  }

  /** Leading zeros are left out, and what follows the first shown number is padded. */
  function Shown(cs: seq<int>): seq<string> {
    if |cs| == 0 then []
    else if cs[0] == 0 then Shown(cs[1..])
    else [Decimal(cs[0])] + AllPadded(cs[1..])
  }

  function Clock(p: Parts): seq<string> { Shown([p.d, p.h, p.m, p.s]) }

  /** The text for a number of milliseconds. */
  function Written(t: int): string { TextOf(Digits5(t)) }

  function TextOf(p: Parts): string {
    if Clock(p) != [] then Join(Clock(p), ':') + ['.'] + Padded(p.ms)
    else if p.ms != 0 then Decimal(p.ms)
    else "null"
  }

  // ---------- Reading it back ----------

  function Signed(s: string): int {
    if s != "" && s[0] == '-' then 0 - Value(s[1..]) else Value(s)
  }

  /** Seconds in one unit of the field with `after` fields behind it. */
  function Weight(after: nat): int {
    if after == 0 then 1 else if after == 1 then 60 else if after == 2 then 3600 else 86_400
  }

  function Seconds(fields: seq<string>): int {
    if |fields| == 0 then 0 else Signed(fields[0]) * Weight(|fields| - 1) + Seconds(fields[1..])
  }

  /** Milliseconds: a number without a dot, or clock fields, a dot and milliseconds. */
  function Read(text: string): int {
    var fields := Split(text, '.');
    if text == "null" then 0
    else if |fields| == 1 then Signed(text)
    else 1000 * Seconds(Split(fields[0], ':')) + Signed(fields[1])
  }

  // ---------- Reading undoes writing ----------

  predicate NumberText(s: string) { forall c :: c in s ==> c == '-' || '0' <= c <= '9' }

  lemma NumberBack(n: int)
    ensures Signed(Decimal(n)) == n && Signed(Padded(n)) == n
    ensures NumberText(Decimal(n)) && NumberText(Padded(n))
  {
    ValueOfDigits(if n < 0 then -n else n);
    if n < 0 {
      assert Decimal(n)[1..] == Digits(-n);
    } else {
      assert Digits(n)[0] in Digits(n) && ("0" + Digits(n))[0] == '0';
      ValueOfPadded(1, Digits(n));
      assert seq(1, i => '0') + Digits(n) == "0" + Digits(n);
    }
  }

  /** Clock numbers as seconds, aligned at the right. */
  function Total(cs: seq<int>): int {
    if |cs| == 0 then 0 else cs[0] * Weight(|cs| - 1) + Total(cs[1..])
  }

  lemma {:induction false} PaddedBack(cs: seq<int>)
    ensures |AllPadded(cs)| == |cs| && Seconds(AllPadded(cs)) == Total(cs)
    ensures forall f :: f in AllPadded(cs) ==> NumberText(f)
  {
    if |cs| != 0 {
      NumberBack(cs[0]);
      PaddedBack(cs[1..]);
      assert AllPadded(cs)[1..] == AllPadded(cs[1..]);
    }
  }

  lemma {:induction false} ShownBack(cs: seq<int>)
    ensures Seconds(Shown(cs)) == Total(cs)
    ensures forall f :: f in Shown(cs) ==> NumberText(f)
    ensures Shown(cs) == [] <==> forall i :: 0 <= i < |cs| ==> cs[i] == 0
  {
    if |cs| != 0 {
      ShownBack(cs[1..]);
      assert forall i :: 0 < i < |cs| ==> cs[i] == cs[1..][i - 1];
      if cs[0] != 0 {
        NumberBack(cs[0]);
        PaddedBack(cs[1..]);
        assert Shown(cs)[1..] == AllPadded(cs[1..]);
      }
    }
  }

  lemma {:induction false} JoinKeepsOut(fields: seq<string>, d: char, c: char)
    requires c != d && forall f :: f in fields ==> c !in f
    ensures c !in Join(fields, d)
  {
    if |fields| > 1 {
      JoinKeepsOut(fields[1..], d, c);
    }
  }

  lemma ReadDotted(front: string, back: string)
    requires '.' !in front && NumberText(back)
    ensures Read(front + ['.'] + back) == 1000 * Seconds(Split(front, ':')) + Signed(back)
  {
    SplitCons(front, back, '.');
    SplitCons(back, "", '.');
    assert (front + ['.'] + back)[|front|] == '.';
  }

  lemma ReadClock(fields: seq<string>, ms: int)
    requires fields != [] && forall f :: f in fields ==> NumberText(f)
    ensures Read(Join(fields, ':') + ['.'] + Padded(ms)) == 1000 * Seconds(fields) + ms
  {
    NumberBack(ms);
    JoinKeepsOut(fields, ':', '.');
    SplitOfJoin(fields, ':');
    ReadDotted(Join(fields, ':'), Padded(ms));
  }

  lemma ReadBare(n: int)
    ensures Read(Decimal(n)) == n
  {
    NumberBack(n);
    SplitCons(Decimal(n), "", '.');
    assert "null"[0] == 'n';
  }

  lemma Digits5Sum(t: int)
    ensures var p := Digits5(t); 1000 * Total([p.d, p.h, p.m, p.s]) + p.ms == t
  {
    var p := Digits5(t);
    TotalOfFour(p.d, p.h, p.m, p.s);
  }

  lemma TotalOfFour(d: int, h: int, m: int, s: int)
    ensures Total([d, h, m, s]) == 86_400 * d + 3600 * h + 60 * m + s
  {
    assert [s][1..] == [] && Total([s]) == s;
    assert [m, s][1..] == [s] && Total([m, s]) == 60 * m + Total([s]);
    assert [h, m, s][1..] == [m, s] && Total([h, m, s]) == 3600 * h + Total([m, s]);
    assert [d, h, m, s][1..] == [h, m, s];
  }

  lemma AnyOfFour(p: Parts)
    ensures Clock(p) != [] <==> p.d != 0 || p.h != 0 || p.m != 0 || p.s != 0
  {
    var cs := [p.d, p.h, p.m, p.s];
    ShownBack(cs);
    assert cs[0] == p.d && cs[1] == p.h && cs[2] == p.m && cs[3] == p.s;
  }

  lemma ReadWritten(t: int)
    ensures Read(Written(t)) == t
  {
    var p := Digits5(t);
    ShownBack([p.d, p.h, p.m, p.s]);
    AnyOfFour(p);
    TotalOfFour(p.d, p.h, p.m, p.s);
    Digits5Sum(t);
    if Clock(p) != [] {
      ReadClock(Clock(p), p.ms);
    } else if p.ms != 0 {
      ReadBare(p.ms);
    }
  }

  // ---------- Main results ----------

  /** The printed text determines the time: reading it gives the whole milliseconds, for every duration. */
  lemma TextDeterminesTime(ns: int)
    ensures Read(Written(Cast(ns, MS))) == Cast(ns, MS)
  {
    ReadWritten(Cast(ns, MS));
  }

  /** Two durations look the same exactly when they have the same whole milliseconds. */
  lemma SameTextExactlyWhen(a: int, b: int)
    ensures Written(Cast(a, MS)) == Written(Cast(b, MS)) <==> Cast(a, MS) == Cast(b, MS)
  {
    ReadWritten(Cast(a, MS));
    ReadWritten(Cast(b, MS));
  }

  lemma NullIsZero(t: int)
    ensures Written(t) == "null" <==> t == 0
  {
    ReadWritten(t);
    if t == 0 {
      AnyOfFour(Radix(0));
    }
  }

  lemma CastIsZero(ns: int)
    ensures Cast(ns, MS) == 0 <==> -MS < ns < MS
  {
    Euclid(ns, MS);
    Euclid(-ns, MS);
  }

  /** "null" is written exactly for what is shorter than a millisecond. */
  lemma NullExactlyWhen(ns: int)
    ensures Written(Cast(ns, MS)) == "null" <==> -MS < ns < MS
  {
    CastIsZero(ns);
    NullIsZero(Cast(ns, MS));
  }

  function Nanoseconds(p: Parts): int { p.d * DAY + p.h * HOUR + p.m * MIN + p.s * SEC + p.ms * MS }

  lemma RadixSum(t: nat)
    ensures var p := Radix(t); 1000 * (60 * (60 * (24 * p.d + p.h) + p.m) + p.s) + p.ms == t
  {
  }

  lemma RadixBack(t: nat)
    ensures Nanoseconds(Radix(t)) == MS * t
  {
    var p := Radix(t);
    RadixSum(t);
    InMilliseconds(p.d, p.h, p.m, p.s, p.ms);
  }

  lemma NegatedBack(p: Parts)
    ensures Nanoseconds(Negated(p)) == -Nanoseconds(p)
  {
  }

  lemma Digits5Back(t: int)
    ensures Nanoseconds(Digits5(t)) == MS * t
  {
    if t < 0 {
      RadixBack(-t);
      NegatedBack(Radix(-t));
    } else {
      RadixBack(t);
    }
  }

  lemma CastIsClose(ns: int)
    ensures -MS < ns - MS * Cast(ns, MS) < MS
    ensures ns >= 0 ==> Cast(ns, MS) >= 0
    ensures ns <= 0 ==> Cast(ns, MS) <= 0
  {
    Euclid(ns, MS);
    Euclid(-ns, MS);
  }

  predicate InRange(p: Parts) {
    p.d >= 0 && 0 <= p.h < 24 && 0 <= p.m < 60 && 0 <= p.s < 60 && 0 <= p.ms < 1000
  }

  lemma RadixInRange(t: nat)
    ensures InRange(Radix(t))
  {
  }

  lemma PartsAreClose(ns: int)
    ensures -MS < ns - Nanoseconds(Digits5(Cast(ns, MS))) < MS
  {
    CastIsClose(ns);
    Digits5Back(Cast(ns, MS));
  }

  lemma PartsInRange(t: int)
    ensures t >= 0 ==> InRange(Digits5(t))
    ensures t <= 0 ==> InRange(Negated(Digits5(t)))
  {
    RadixInRange(if t < 0 then -t else t);
  }

  /** The numbers written are in their ranges, all with the sign of the duration, and they add up to it
      but for less than a millisecond. */
  lemma PartsSumBack(ns: int)
    ensures var p := Digits5(Cast(ns, MS));
      && -MS < ns - Nanoseconds(p) < MS
      && if ns >= 0 then InRange(p) else InRange(Negated(p))
  {
    PartsAreClose(ns);
    CastIsClose(ns);
    PartsInRange(Cast(ns, MS));
  }

  // ---------- What the text looks like ----------

  /** The fields of a text around the dot, and those of its clock. */
  function Halves(text: string): seq<string> { Split(text, '.') }
  function Fields(text: string): seq<string> { Split(Halves(text)[0], ':') }

  lemma {:induction false} DigitsStart(n: nat)
    requires n > 0
    ensures Digits(n)[0] != '0'
  {
    if n < 10 {
      DigitRoundTrip(n);
    } else {
      DigitsStart(n / 10);
    }
  }

  lemma PaddedLength(n: nat)
    requires n < 1000
    ensures |Padded(n)| == if n < 100 then 2 else 3
  {
    if n >= 10 {
      assert |Digits(n / 10)| == if n < 100 then 1 else 2;
    }
  }

  /** Behind the first number every one is below 100. */
  predicate ClockNumbers(cs: seq<int>) {
    forall i :: 0 <= i < |cs| ==> cs[i] >= 0 && (i > 0 ==> cs[i] < 100)
  }

  lemma {:induction false} PaddedAreTwoWide(cs: seq<int>)
    requires forall i :: 0 <= i < |cs| ==> 0 <= cs[i] < 100
    ensures |AllPadded(cs)| == |cs| && forall i :: 0 <= i < |cs| ==> |AllPadded(cs)[i]| == 2
  {
    if |cs| != 0 {
      PaddedLength(cs[0]);
      PaddedAreTwoWide(cs[1..]);
      assert forall i :: 0 < i < |cs| ==> AllPadded(cs)[i] == AllPadded(cs[1..])[i - 1];
    }
  }

  /** The first field does not start with a zero, and all others are two wide. */
  predicate ClockShape(fields: seq<string>) {
    && fields != [] && fields[0] != "" && fields[0][0] != '0'
    && forall i :: 0 < i < |fields| ==> |fields[i]| == 2
  }

  lemma {:induction false} ShownShape(cs: seq<int>)
    requires ClockNumbers(cs)
    ensures Shown(cs) != [] ==> ClockShape(Shown(cs))
    ensures |cs| > 0 && cs[0] != 0 ==> |Shown(cs)| == |cs|
  {
    if |cs| != 0 {
      forall i | 0 <= i < |cs| - 1 ensures 0 <= cs[1..][i] < 100 {
        assert cs[1..][i] == cs[i + 1];
      }
      if cs[0] == 0 {
        ShownShape(cs[1..]);
      } else {
        DigitsStart(cs[0]);
        PaddedAreTwoWide(cs[1..]);
        assert forall i :: 0 < i < |cs| ==> Shown(cs)[i] == AllPadded(cs[1..])[i - 1];
      }
    }
  }

  lemma HowManyShown(p: Parts)
    requires InRange(p)
    ensures Clock(p) != [] ==> ClockShape(Clock(p))
    ensures |Clock(p)| == if p.d > 0 then 4 else if p.h > 0 then 3 else if p.m > 0 then 2 else if p.s > 0 then 1 else 0
  {
    var four, three, two, one := [p.d, p.h, p.m, p.s], [p.h, p.m, p.s], [p.m, p.s], [p.s];
    assert four[1..] == three && three[1..] == two && two[1..] == one && one[1..] == [];
    ShownShape(four);
    ShownShape(three);
    ShownShape(two);
    ShownShape(one);
    assert p.d == 0 ==> Shown(four) == Shown(three);
    assert p.h == 0 ==> Shown(three) == Shown(two);
    assert p.m == 0 ==> Shown(two) == Shown(one);
    assert p.s == 0 ==> Shown(one) == [];
  }

  lemma PartsOfAtLeastASecond(t: nat)
    ensures var p := Radix(t);
      && InRange(p) && p.ms == t % 1000
      && (p.d > 0 <==> t >= 86_400_000) && (p.d == 0 && p.h > 0 <==> 3_600_000 <= t < 86_400_000)
      && (p.d == 0 && p.h == 0 && p.m > 0 <==> 60_000 <= t < 3_600_000)
      && (p.d == 0 && p.h == 0 && p.m == 0 && p.s > 0 <==> 1000 <= t < 60_000)
  {
    var p := Radix(t);
    RadixSum(t);
    RadixInRange(t);
    Magnitudes(p.d, p.h, p.m, p.s, p.ms, t);
  }

  lemma Magnitudes(d: nat, h: nat, m: nat, s: nat, ms: nat, t: nat)
    requires h < 24 && m < 60 && s < 60 && ms < 1000
    requires t == 1000 * (60 * (60 * (24 * d + h) + m) + s) + ms
    ensures d > 0 <==> t >= 86_400_000
    ensures d == 0 && h > 0 <==> 3_600_000 <= t < 86_400_000
    ensures d == 0 && h == 0 && m > 0 <==> 60_000 <= t < 3_600_000
    ensures d == 0 && h == 0 && m == 0 && s > 0 <==> 1000 <= t < 60_000
  {
  }

  lemma HalvesAround(front: string, back: string)
    requires '.' !in front && '.' !in back
    ensures Halves(front + ['.'] + back) == [front] + [back]
  {
    SplitCons(front, back, '.');
    SplitCons(back, "", '.');
  }

  lemma HalvesOfClock(fields: seq<string>, ms: int)
    requires fields != [] && forall f :: f in fields ==> NumberText(f)
    ensures var text := Join(fields, ':') + ['.'] + Padded(ms);
      Halves(text) == [Join(fields, ':')] + [Padded(ms)] && Fields(text) == fields
  {
    NumberBack(ms);
    JoinKeepsOut(fields, ':', '.');
    HalvesAround(Join(fields, ':'), Padded(ms));
    SplitOfJoin(fields, ':');
  }

  lemma WrittenHalves(t: nat)
    requires t >= 1000
    ensures Clock(Radix(t)) != []
    ensures Halves(Written(t)) == [Join(Clock(Radix(t)), ':')] + [Padded(t % 1000)]
    ensures Fields(Written(t)) == Clock(Radix(t))
  {
    var p := Radix(t);
    PartsOfAtLeastASecond(t);
    HalvesOfParts(p);
  }

  lemma HalvesOfParts(p: Parts)
    requires p.d != 0 || p.h != 0 || p.m != 0 || p.s != 0
    ensures Clock(p) != []
    ensures Halves(TextOf(p)) == [Join(Clock(p), ':')] + [Padded(p.ms)] && Fields(TextOf(p)) == Clock(p)
  {
    AnyOfFour(p);
    ShownBack([p.d, p.h, p.m, p.s]);
    HalvesOfClock(Clock(p), p.ms);
  }

  /** From a second on: days, hours, minutes and seconds as far as there are any, without a leading zero in
      front and two wide behind, then a dot and two or three digits. With what the text reads back as, this
      leaves one text for each time. */
  lemma WrittenLooksLike(t: nat)
    requires t >= 1000
    ensures var halves, fields := Halves(Written(t)), Fields(Written(t));
      && |halves| == 2
      && |halves[1]| == (if t % 1000 < 100 then 2 else 3)
      && ClockShape(fields)
      && |fields| == if t >= 86_400_000 then 4 else if t >= 3_600_000 then 3 else if t >= 60_000 then 2 else 1
  {
    PartsOfAtLeastASecond(t);
    WrittenHalves(t);
    HowManyShown(Radix(t));
    PaddedLength(t % 1000);
  }

  /** Below a second: the bare number of milliseconds, without a dot, a colon or a leading zero. */
  lemma WrittenBelowASecond(t: nat)
    requires 0 < t < 1000
    ensures Value(Written(t)) == t && Written(t)[0] != '0' && forall c :: c in Written(t) ==> '0' <= c <= '9'
  {
    PartsOfAtLeastASecond(t);
    AnyOfFour(Radix(t));
    ValueOfDigits(t);
    DigitsStart(t);
  }

  /** A negative duration has a sign in every number that is not zero, and a sign counts as one of the two
      characters: only zeros are padded. */
  lemma NegativeLooksLike(t: nat)
    requires t >= 1000
    ensures |Halves(Written(0 - t))| == 2
    ensures Halves(Written(0 - t))[1] == if t % 1000 == 0 then "00" else "-" + Digits(t % 1000)
  {
    var p := Negated(Radix(t));
    PartsOfAtLeastASecond(t);
    NegatedDigits(t);
    assert p.d != 0 || p.h != 0 || p.m != 0 || p.s != 0;
    HalvesOfParts(p);
    PaddedBelowZero(t % 1000);
  }

  lemma PaddedBelowZero(ms: nat)
    ensures Padded(0 - ms) == if ms == 0 then "00" else "-" + Digits(ms)
  {
    if ms == 0 {
      ZeroPadded(0);
    } else {
      assert Decimal(0 - ms) == "-" + Digits(ms);
    }
  }

  lemma ZeroPadded(n: int)
    requires n == 0
    ensures Padded(n) == "00"
  {
    assert Digit(0) == '0';
    assert Decimal(n) == ['0'];
  }

  function Pow10(n: nat): nat { if n == 0 then 1 else 10 * Pow10(n - 1) }

  /** The digits behind the dot are a count of milliseconds, not a decimal fraction of a second: read as
      a fraction they are right exactly when there are none or three digits' worth of them. */
  lemma FractionRightExactlyWhen(t: nat)
    requires t >= 1000
    ensures |Halves(Written(t))| == 2
    ensures var behind := Halves(Written(t))[1];
      Value(behind) * 1000 == (t % 1000) * Pow10(|behind|) <==> t % 1000 == 0 || t % 1000 >= 100
  {
    WrittenHalves(t);
    PaddedFraction(t % 1000);
  }

  lemma PaddedFraction(ms: nat)
    requires ms < 1000
    ensures Value(Padded(ms)) * 1000 == ms * Pow10(|Padded(ms)|) <==> ms == 0 || ms >= 100
  {
    NumberBack(ms);
    PaddedLength(ms);
    assert Pow10(1) == 10 && Pow10(2) == 100 && Pow10(3) == 1000;
    assert Pow10(|Padded(ms)|) == if ms < 100 then 100 else 1000;
  }

  // ---------- The code ----------

  lemma DivMod(q: int, r: int, k: int)
    requires 0 <= r < k
    ensures (k * q + r) / k == q && (k * q + r) % k == r
  {
    var x := k * q + r;
    Euclid(x, k);
    var q' := x / k;
    assert k * (q - q') == x % k - r && k * (q' - q) == r - x % k;
    if q > q' {
      AtLeast(k, q - q');
    } else if q < q' {
      AtLeast(k, q' - q);
    }
  }

  lemma Euclid(x: int, k: int)
    requires k > 0
    ensures x == k * (x / k) + x % k && 0 <= x % k < k
  {
  }

  lemma AtLeast(k: int, n: int)
    requires k > 0 && n >= 1
    ensures k * n >= k
  {
  }

  /** Mixed-radix digits are unique. */
  lemma RadixUnique(d: nat, h: nat, m: nat, s: nat, ms: nat)
    requires h < 24 && m < 60 && s < 60 && ms < 1000
    ensures Radix(1000 * (60 * (60 * (24 * d + h) + m) + s) + ms) == Parts(d, h, m, s, ms)
  {
    DivMod(d, h, 24);
    DivMod(24 * d + h, m, 60);
    DivMod(60 * (24 * d + h) + m, s, 60);
    DivMod(60 * (60 * (24 * d + h) + m) + s, ms, 1000);
  }

  function SplitOff(ns: int): Parts {
    var r1 := ns - Cast(ns, DAY) * DAY;
    var r2 := r1 - Cast(r1, HOUR) * HOUR;
    var r3 := r2 - Cast(r2, MIN) * MIN;
    var r4 := r3 - Cast(r3, SEC) * SEC;
    Parts(Cast(ns, DAY), Cast(r1, HOUR), Cast(r2, MIN), Cast(r3, SEC), Cast(r4, MS))
  }

  lemma TakeOff(ns: nat, unit: int)
    requires unit > 0
    ensures var r := ns - Cast(ns, unit) * unit; 0 <= r < unit && Cast(ns, unit) >= 0
  {
    Euclid(ns, unit);
    assert unit * -(ns / unit) == -(unit * (ns / unit));
    if ns / unit < 0 {
      AtLeast(unit, -(ns / unit));
    }
  }

  lemma Recombined(d: nat, h: nat, m: nat, s: nat, ms: nat, rest: nat)
    requires h < 24 && m < 60 && s < 60 && ms < 1000 && rest < MS
    ensures Radix((d * DAY + h * HOUR + m * MIN + s * SEC + ms * MS + rest) / MS) == Parts(d, h, m, s, ms)
  {
    var t := 1000 * (60 * (60 * (24 * d + h) + m) + s) + ms;
    InMilliseconds(d, h, m, s, ms);
    DivMod(t, rest, MS);
    RadixUnique(d, h, m, s, ms);
  }

  lemma InMilliseconds(d: int, h: int, m: int, s: int, ms: int)
    ensures d * DAY + h * HOUR + m * MIN + s * SEC + ms * MS
         == MS * (1000 * (60 * (60 * (24 * d + h) + m) + s) + ms)
  {
  }

  lemma SplitOffIsRadix(ns: nat)
    ensures SplitOff(ns) == Radix(ns / MS)
  {
    var p := SplitOff(ns);
    TakeOff(ns, DAY);
    var r1 := ns - p.d * DAY;
    TakeOff(r1, HOUR);
    var r2 := r1 - p.h * HOUR;
    TakeOff(r2, MIN);
    var r3 := r2 - p.m * MIN;
    TakeOff(r3, SEC);
    var r4 := r3 - p.s * SEC;
    TakeOff(r4, MS);
    Recombined(p.d, p.h, p.m, p.s, p.ms, r4 - p.ms * MS);
  }

  lemma TakeOffNegated(x: int, unit: int)
    requires unit > 0
    ensures Cast(-x, unit) == -Cast(x, unit)
    ensures -x - Cast(-x, unit) * unit == -(x - Cast(x, unit) * unit)
  {
    if x == 0 {
      Euclid(0, unit);
      DivMod(0, 0, unit);
    }
    var q := Cast(x, unit);
    assert (-q) * unit == -(q * unit);
  }

  lemma SplitOffNegated(ns: int)
    ensures SplitOff(0 - ns) == Negated(SplitOff(ns))
  {
    var r1 := ns - Cast(ns, DAY) * DAY;
    var r2 := r1 - Cast(r1, HOUR) * HOUR;
    var r3 := r2 - Cast(r2, MIN) * MIN;
    TakeOffNegated(ns, DAY);
    TakeOffNegated(r1, HOUR);
    TakeOffNegated(r2, MIN);
    TakeOffNegated(r3, SEC);
    TakeOffNegated(r3 - Cast(r3, SEC) * SEC, MS);
  }

  lemma ZeroDigits()
    ensures Radix(0) == Parts(0, 0, 0, 0, 0)
  {
  }

  lemma NegatedDigits(t: nat)
    ensures Negated(Radix(t)) == Digits5(0 - t)
  {
    if t == 0 {
      ZeroDigits();
    } else {
      assert Digits5(0 - t) == Negated(Radix(-(0 - t)));
      assert -(0 - t) == t;
    }
  }

  lemma NegatedCast(ns: nat)
    ensures Cast(0 - ns, MS) == 0 - ns / MS
  {
    if ns == 0 {
      DivMod(0, 0, MS);
    }
  }

  lemma SplitOffBelowZero(ns: nat)
    ensures SplitOff(0 - ns) == Digits5(Cast(0 - ns, MS))
  {
    SplitOffIsRadix(ns);
    SplitOffNegated(ns);
    NegatedCast(ns);
    SameDigits(ns / MS, SplitOff(ns), SplitOff(0 - ns), Cast(0 - ns, MS));
  }

  lemma SameDigits(t: nat, p: Parts, q: Parts, n: int)
    requires p == Radix(t) && q == Negated(p) && n == 0 - t
    ensures q == Digits5(n)
  {
    NegatedDigits(t);
  }

  lemma SplitOffIsDigits(ns: int)
    ensures SplitOff(ns) == Digits5(Cast(ns, MS))
  {
    if ns < 0 {
      SplitOffBelowZero(-ns);
      assert 0 - (-ns) == ns;
    } else {
      SplitOffIsRadix(ns);
    }
  }

  /** The first half of `to_string`: take off days, hours, minutes and seconds in turn. */
  method Components(ns: int) returns (p: Parts)
    ensures p == Digits5(Cast(ns, MS))
  {
    var input := ns;
    var d := Cast(input, DAY);
    input := input - d * DAY;
    var h := Cast(input, HOUR);
    input := input - h * HOUR;
    var m := Cast(input, MIN);
    input := input - m * MIN;
    var s := Cast(input, SEC);
    input := input - s * SEC;
    p := Parts(d, h, m, s, Cast(input, MS));
    SplitOffIsDigits(ns);
  }

  lemma {:induction false} PaddedAppend(cs: seq<int>, x: int)
    ensures AllPadded(cs + [x]) == AllPadded(cs) + [Padded(x)]
  {
    if |cs| != 0 {
      assert (cs + [x])[1..] == cs[1..] + [x];
      PaddedAppend(cs[1..], x);
    } else {
      assert (cs + [x])[1..] == [];
    }
  }

  lemma {:induction false} ShownAppend(cs: seq<int>, x: int)
    ensures Shown(cs + [x]) ==
      if Shown(cs) != [] then Shown(cs) + [Padded(x)] else if x != 0 then [Decimal(x)] else []
  {
    if |cs| != 0 {
      assert (cs + [x])[1..] == cs[1..] + [x];
      ShownAppend(cs[1..], x);
      PaddedAppend(cs[1..], x);
    } else {
      assert (cs + [x])[1..] == [];
    }
  }

  function Extended(text: string, some: bool, x: int): string {
    if some then text + ":" + Padded(x) else if x != 0 then text + Decimal(x) else text
  }

  /** One more number behind the clock numbers written so far. */
  lemma OneMore(cs: seq<int>, x: int)
    ensures Join(Shown(cs + [x]), ':') == Extended(Join(Shown(cs), ':'), Shown(cs) != [], x)
    ensures Shown(cs + [x]) != [] <==> Shown(cs) != [] || x != 0
  {
    ShownAppend(cs, x);
    if Shown(cs) != [] {
      JoinAppend(Shown(cs), Padded(x), ':');
    } else {
      assert "" + Decimal(x) == Decimal(x);
    }
  }

  lemma ClockGrows(p: Parts)
    ensures var dc, hc, mc := p.d != 0, p.h != 0, p.m != 0;
      var days := Extended("", false, p.d);
      var hours := Extended(days, dc, p.h);
      var minutes := Extended(hours, dc || hc, p.m);
      Join(Clock(p), ':') == Extended(minutes, dc || hc || mc, p.s)
  {
    var one, two, three := [p.d], [p.d, p.h], [p.d, p.h, p.m];
    assert [] + [p.d] == one && one + [p.h] == two && two + [p.m] == three && three + [p.s] == [p.d, p.h, p.m, p.s];
    OneMore([], p.d);
    OneMore(one, p.h);
    OneMore(two, p.m);
    OneMore(three, p.s);
  }

  /** The second half: the clock numbers. */
  method FormatClock(p: Parts) returns (text: string)
    ensures text == Join(Clock(p), ':')
  {
    ClockGrows(p);
    var dc, hc, mc, sc := p.d != 0, p.h != 0, p.m != 0, p.s != 0;
    text := "";
    if dc {
      text := text + Decimal(p.d);
    }
    if dc || hc {
      text := if dc then text + ":" + Padded(p.h) else text + Decimal(p.h);
    }
    if dc || hc || mc {
      text := if dc || hc then text + ":" + Padded(p.m) else text + Decimal(p.m);
    }
    if dc || hc || mc || sc {
      text := if dc || hc || mc then text + ":" + Padded(p.s) else text + Decimal(p.s);
    }
  }

  /** And the milliseconds behind them. */
  method Format(p: Parts) returns (text: string)
    ensures text == TextOf(p)
  {
    AnyOfFour(p);
    text := FormatClock(p);
    var clock := p.d != 0 || p.h != 0 || p.m != 0 || p.s != 0;
    if clock || p.ms != 0 {
      text := if clock then text + "." + Padded(p.ms) else text + Decimal(p.ms);
    }
    if !clock && p.ms == 0 {
      text := text + "null";
    }
  }

  /** `to_string`. */
  method ToString(ns: int) returns (text: string)
    ensures text == Written(Cast(ns, MS))
  {
    var p := Components(ns);
    text := Format(p);
  }
}
