/** RFC 3339 time stamps, `YYYY-MM-DDTHH:MM:SSZ` only, as src/envelope.rs prints and reads
    them. All texts it reads or prints are compared byte by byte; a text with a non-ASCII
    character has a non-digit where a digit is due, so characters stand for bytes here. */
module TimeStamps {
  import opened Prelude
  import opened Calendar

  type U64 = n: nat | n < 0x1_0000_0000_0000_0000

  /** 9999-12-31T23:59:59Z. */
  const LAST_STAMP := 253402300799

  datatype Stamp = Stamp(date: Date, h: int, mi: int, sec: int)

  /** `unix as i64`: the upper half of the range wraps around. */
  function AsI64(n: U64): int {
    if n < 0x8000_0000_0000_0000 then n else n - 0x1_0000_0000_0000_0000
  }

  // ---- printing ----

  function Digit(n: int): char
    requires 0 <= n < 10
  {
    ('0' as int + n) as char
  }

  function Decimal(n: nat): (s: string)
    ensures |s| >= 1 && s[0] != '-'
    ensures n >= 10000 ==> |s| >= 5
    ensures n < 10000 ==> |s| == if n < 10 then 1 else if n < 100 then 2 else if n < 1000 then 3 else 4
  {
    if n < 10 then [Digit(n)] else Decimal(n / 10) + [Digit(n % 10)]
  }

  function Zeros(n: int): string {
    if n <= 0 then "" else "0" + Zeros(n - 1)
  }

  /** Rust's `{n:0width}`: the sign counts towards the width. */
  function Padded(n: int, width: nat): string {
    if n >= 0 then Zeros(width - |Decimal(n)|) + Decimal(n)
    else "-" + Zeros(width - 1 - |Decimal(-n)|) + Decimal(-n)
  }

  function Show(t: Stamp): string {
    Padded(t.date.y, 4) + "-" + Padded(t.date.m, 2) + "-" + Padded(t.date.d, 2) + "T"
      + Padded(t.h, 2) + ":" + Padded(t.mi, 2) + ":" + Padded(t.sec, 2) + "Z"
  }

  function StampOf(unix: int): Stamp {
    var rem := unix % 86400;
    Stamp(CivilFromDays(unix / 86400), rem / 3600, rem % 3600 / 60, rem % 60)
  }

  function UnixToRfc3339(unix: U64): string {
    Show(StampOf(AsI64(unix)))
  }

  // ---- reading ----

  predicate IsDigit(c: char) {
    '0' <= c <= '9'
  }

  function Number(s: string): int
    requires forall i :: 0 <= i < |s| ==> IsDigit(s[i])
  {
    if s == "" then 0 else 10 * Number(s[..|s| - 1]) + (s[|s| - 1] as int - '0' as int)
  }

  function Field(s: string, from: nat, to: nat): Option<int>
    requires from <= to <= |s|
  {
    if forall i :: from <= i < to ==> IsDigit(s[i]) then Some(Number(s[from..to])) else None
  }

  function ReadStamp(s: string): Option<Stamp> {
    if |s| != 20 || s[4] != '-' || s[7] != '-' || s[10] != 'T' || s[13] != ':' || s[16] != ':' || s[19] != 'Z'
    then None
    else
      match (Field(s, 0, 4), Field(s, 5, 7), Field(s, 8, 10), Field(s, 11, 13), Field(s, 14, 16), Field(s, 17, 19))
      case (Some(y), Some(m), Some(d), Some(h), Some(mi), Some(sec)) =>
        if !(1 <= m <= 12) || !(1 <= d <= 31) || h > 23 || mi > 59 || sec > 60 then None
        else Some(Stamp(Date(y, m, d), h, mi, sec))
      case _ => None
  }

  function Seconds(t: Stamp): int {
    DaysFromCivil(t.date) * 86400 + t.h * 3600 + t.mi * 60 + t.sec
  }

  function ParseRfc3339ToUnix(s: string): Option<nat> {
    match ReadStamp(s)
    case None => None
    case Some(t) => if Seconds(t) >= 0 then Some(Seconds(t)) else None
  }

  // ---- two- and four-digit fields ----

  function Two(n: int): string
    requires 0 <= n < 100
  {
    [Digit(n / 10), Digit(n % 10)]
  }

  function Four(n: int): string
    requires 0 <= n < 10000
  {
    [Digit(n / 1000), Digit(n / 100 % 10), Digit(n / 10 % 10), Digit(n % 10)]
  }

  lemma PaddedTwo(n: int)
    requires 0 <= n < 100
    ensures Padded(n, 2) == Two(n)
  {
    assert Zeros(1) == "0" + Zeros(0);
    if n < 10 {
      assert Decimal(n) == [Digit(n)];
    } else {
      assert Decimal(n / 10) == [Digit(n / 10)];
    }
  }

  lemma DecimalStep(n: int)
    requires 0 <= n < 10000
    ensures n < 10 ==> Decimal(n) == [Digit(n)]
    ensures n >= 10 ==> Decimal(n) == Decimal(n / 10) + [Digit(n % 10)]
  {
  }

  lemma ZerosUpToThree()
    ensures Zeros(0) == "" && Zeros(1) == "0" && Zeros(2) == "00" && Zeros(3) == "000"
  {
    assert Zeros(1) == "0" + Zeros(0);
    assert Zeros(2) == "0" + Zeros(1);
    assert Zeros(3) == "0" + Zeros(2);
  }

  lemma PaddedFour(n: int)
    requires 0 <= n < 10000
    ensures Padded(n, 4) == Four(n)
  {
    ZerosUpToThree();
    DecimalStep(n);
    DecimalStep(n / 10);
    DecimalStep(n / 100);
    DecimalStep(n / 1000);
    assert n / 10 / 10 == n / 100 && n / 100 / 10 == n / 1000;
    hide Decimal, Zeros;
    if n < 10 {
      assert n / 10 == 0 && n / 100 == 0 && n / 1000 == 0;
    } else if n < 100 {
      assert n / 100 == 0 && n / 1000 == 0 && 0 < n / 10 < 10;
    } else if n < 1000 {
      assert n / 1000 == 0 && 0 < n / 100 < 10;
    } else {
      assert 0 < n / 1000 < 10;
    }
  }

  lemma NumberTwo(n: int)
    requires 0 <= n < 100
    ensures Number(Two(n)) == n
  {
    var s := Two(n);
    assert s[..1] == [s[0]];
    assert Number(s[..1]) == n / 10 by { assert s[..1][..0] == ""; }
  }

  lemma TwoNumber(s: string)
    requires |s| == 2 && IsDigit(s[0]) && IsDigit(s[1])
    ensures 0 <= Number(s) < 100 && Two(Number(s)) == s
  {
    assert Number(s[..1]) == s[0] as int - '0' as int by { assert s[..1][..0] == ""; }
  }

  lemma NumberFour(n: int)
    requires 0 <= n < 10000
    ensures Number(Four(n)) == n
  {
    FourDigits(n);
    NumberDigits(Four(n));
  }

  lemma FourDigits(n: int)
    requires 0 <= n < 10000
    ensures n == 1000 * (n / 1000) + 100 * (n / 100 % 10) + 10 * (n / 10 % 10) + n % 10
  {
    assert n == 10 * (n / 10) + n % 10;
    var t := n / 10;
    assert t == 10 * (t / 10) + t % 10 && t / 10 == n / 100;
    var h := t / 10;
    assert h == 10 * (h / 10) + h % 10 && h / 10 == n / 1000;
  }

  lemma NumberDigits(s: string)
    requires |s| == 4 && forall i :: 0 <= i < 4 ==> IsDigit(s[i])
    ensures Number(s) == 1000 * (s[0] as int - '0' as int) + 100 * (s[1] as int - '0' as int)
                         + 10 * (s[2] as int - '0' as int) + (s[3] as int - '0' as int)
  {
    var one, two, three := s[..1], s[..2], s[..3];
    assert one[..0] == "" && two[..1] == one && three[..2] == two;
    assert Number(one) == s[0] as int - '0' as int;
    assert Number(two) == 10 * Number(one) + (s[1] as int - '0' as int);
    assert Number(three) == 10 * Number(two) + (s[2] as int - '0' as int);
  }

  lemma DigitsOfNumber(a: int, b: int, c: int, d: int)
    requires 0 <= a < 10 && 0 <= b < 10 && 0 <= c < 10 && 0 <= d < 10
    ensures var n := 1000 * a + 100 * b + 10 * c + d;
            && 0 <= n < 10000 && n / 1000 == a && n / 100 % 10 == b && n / 10 % 10 == c && n % 10 == d
  {
    var n := 1000 * a + 100 * b + 10 * c + d;
    assert n / 10 == 100 * a + 10 * b + c && n / 100 == 10 * a + b;
  }

  lemma FourNumber(s: string)
    requires |s| == 4 && forall i :: 0 <= i < 4 ==> IsDigit(s[i])
    ensures 0 <= Number(s) < 10000 && Four(Number(s)) == s
  {
    NumberDigits(s);
    hide Number;
    var a, b, c, d := s[0] as int - '0' as int, s[1] as int - '0' as int, s[2] as int - '0' as int, s[3] as int - '0' as int;
    DigitsOfNumber(a, b, c, d);
    assert s == [Digit(a), Digit(b), Digit(c), Digit(d)];
  }

  // ---- printing and reading undo each other ----

  predicate InRange(t: Stamp) {
    && 0 <= t.date.y < 10000 && 1 <= t.date.m <= 12 && 1 <= t.date.d <= 31
    && 0 <= t.h < 24 && 0 <= t.mi < 60 && 0 <= t.sec <= 60
  }

  function Fixed(t: Stamp): string
    requires InRange(t)
  {
    Four(t.date.y) + "-" + Two(t.date.m) + "-" + Two(t.date.d) + "T"
      + Two(t.h) + ":" + Two(t.mi) + ":" + Two(t.sec) + "Z"
  }

  lemma ShowFixed(t: Stamp)
    requires InRange(t)
    ensures Show(t) == Fixed(t)
  {
    PaddedFour(t.date.y);
    PaddedTwo(t.date.m);
    PaddedTwo(t.date.d);
    PaddedTwo(t.h);
    PaddedTwo(t.mi);
    PaddedTwo(t.sec);
  }

  lemma LengthOfFields(t: Stamp)
    requires InRange(t)
    ensures |Four(t.date.y)| == 4 && |Two(t.date.m)| == |Two(t.date.d)| == 2
    ensures |Two(t.h)| == |Two(t.mi)| == |Two(t.sec)| == 2
    ensures forall i :: 0 <= i < 4 ==> IsDigit(Four(t.date.y)[i])
    ensures forall i :: 0 <= i < 2 ==> IsDigit(Two(t.date.m)[i]) && IsDigit(Two(t.date.d)[i])
    ensures forall i :: 0 <= i < 2 ==> IsDigit(Two(t.h)[i]) && IsDigit(Two(t.mi)[i]) && IsDigit(Two(t.sec)[i])
  {
  }

  lemma FieldsOfFixed(t: Stamp)
    requires InRange(t)
    ensures var s := Fixed(t);
            && |s| == 20 && s[4] == s[7] == '-' && s[10] == 'T' && s[13] == s[16] == ':' && s[19] == 'Z'
            && s[0..4] == Four(t.date.y) && s[5..7] == Two(t.date.m) && s[8..10] == Two(t.date.d)
            && s[11..13] == Two(t.h) && s[14..16] == Two(t.mi) && s[17..19] == Two(t.sec)
  {
    LengthOfFields(t);
    hide Two, Four;
  }

  lemma FieldReads(s: string, from: nat, to: nat, digits: string, n: int)
    requires from <= to <= |s| && s[from..to] == digits
    requires forall i :: 0 <= i < |digits| ==> IsDigit(digits[i])
    requires Number(digits) == n
    ensures Field(s, from, to) == Some(n)
  {
    assert forall i :: from <= i < to ==> s[i] == digits[i - from];
  }

  lemma ReadShow(t: Stamp)
    requires InRange(t)
    ensures ReadStamp(Show(t)) == Some(t)
  {
    ShowFixed(t);
    FieldsOfFixed(t);
    LengthOfFields(t);
    NumberFour(t.date.y);
    NumberTwo(t.date.m);
    NumberTwo(t.date.d);
    NumberTwo(t.h);
    NumberTwo(t.mi);
    NumberTwo(t.sec);
    hide Show, Number, Two, Four, Fixed, Field, IsDigit;
    var s := Fixed(t);
    FieldReads(s, 0, 4, Four(t.date.y), t.date.y);
    FieldReads(s, 5, 7, Two(t.date.m), t.date.m);
    FieldReads(s, 8, 10, Two(t.date.d), t.date.d);
    FieldReads(s, 11, 13, Two(t.h), t.h);
    FieldReads(s, 14, 16, Two(t.mi), t.mi);
    FieldReads(s, 17, 19, Two(t.sec), t.sec);
  }

  lemma FieldIsTwo(s: string, from: nat)
    requires from + 2 <= |s| && Field(s, from, from + 2).Some?
    ensures var n := Field(s, from, from + 2).value; 0 <= n < 100 && Two(n) == s[from..from + 2]
  {
    TwoNumber(s[from..from + 2]);
    hide Number, Two;
  }

  lemma FieldIsFour(s: string)
    requires 4 <= |s| && Field(s, 0, 4).Some?
    ensures var n := Field(s, 0, 4).value; 0 <= n < 10000 && Four(n) == s[0..4]
  {
    FourNumber(s[0..4]);
    hide Number, Four;
  }

  lemma Pieces(s: string)
    requires |s| == 20
    ensures s == s[0..4] + [s[4]] + s[5..7] + [s[7]] + s[8..10] + [s[10]] + s[11..13] + [s[13]]
                 + s[14..16] + [s[16]] + s[17..19] + [s[19]]
  {
  }

  lemma ShowRead(s: string)
    requires ReadStamp(s).Some?
    ensures InRange(ReadStamp(s).value) && Show(ReadStamp(s).value) == s
  {
    var t := ReadStamp(s).value;
    hide Number, Two, Four, Show, Field;
    FieldIsFour(s);
    FieldIsTwo(s, 5);
    FieldIsTwo(s, 8);
    FieldIsTwo(s, 11);
    FieldIsTwo(s, 14);
    FieldIsTwo(s, 17);
    ShowFixed(t);
    Pieces(s);
  }

  lemma SecondsOfStamp(unix: int)
    ensures var t := StampOf(unix);
            Seconds(t) == unix && ValidDate(t.date) && 0 <= t.h < 24 && 0 <= t.mi < 60 && 0 <= t.sec < 60
  {
    hide CivilFromDays, DaysFromCivil, ValidDate;
    DaysOfCivil(unix / 86400);
    ClockSeconds(unix % 86400);
  }

  lemma ClockSeconds(rem: int)
    requires 0 <= rem < 86400
    ensures rem == rem / 3600 * 3600 + rem % 3600 / 60 * 60 + rem % 60
    ensures 0 <= rem / 3600 < 24 && 0 <= rem % 3600 / 60 < 60 && 0 <= rem % 60 < 60
  {
    assert rem % 3600 % 60 == rem % 60;
  }

  lemma SecondsClock(h: int, mi: int, sec: int, days: int)
    requires 0 <= h < 24 && 0 <= mi < 60 && 0 <= sec < 60
    ensures var rem := h * 3600 + mi * 60 + sec;
            && (days * 86400 + rem) / 86400 == days && (days * 86400 + rem) % 86400 == rem
            && rem / 3600 == h && rem % 3600 / 60 == mi && rem % 60 == sec
  {
    var rem := h * 3600 + mi * 60 + sec;
    assert rem % 3600 == mi * 60 + sec;
    var unix := days * 86400 + rem;
    assert unix / 86400 == days;
  }

  lemma StampOfSeconds(t: Stamp)
    requires ValidDate(t.date) && 0 <= t.h < 24 && 0 <= t.mi < 60 && 0 <= t.sec < 60
    ensures StampOf(Seconds(t)) == t
  {
    hide CivilFromDays, DaysFromCivil, ValidDate;
    CivilOfDays(t.date);
    SecondsClock(t.h, t.mi, t.sec, DaysFromCivil(t.date));
  }

  lemma LastDay()
    ensures CivilFromDays(2932896) == Date(9999, 12, 31)
  {
    var march := MarchDate(24, 399, 9, 31);
    LastMarchDay(march);
    LastMarchDate(march);
    hide DaysOfMarch, MarchOfDays, DateOfMarch, ValidMarch;
    MarchAndDays(march);
  }

  lemma LastMarchDate(march: MarchDate)
    requires march == MarchDate(24, 399, 9, 31)
    ensures ValidMarch(march) && DateOfMarch(march) == Date(9999, 12, 31)
  {
  }

  lemma LastStampDay()
    ensures LAST_STAMP / 86400 == 2932896
  {
  }

  lemma LastMarchDay(march: MarchDate)
    requires march == MarchDate(24, 399, 9, 31)
    ensures DaysOfMarch(march) == 2932896
  {
    assert DayOfEra(399, (153 * 9 + 2) / 5 + 30) == 146036;
  }

  lemma YearRange(days: int)
    ensures days <= LAST_STAMP / 86400 <==> CivilFromDays(days).y <= 9999
    ensures days >= 0 ==> CivilFromDays(days).y >= 1970
  {
    var last := LAST_STAMP / 86400;
    LastStampDay();
    LastDay();
    hide CivilFromDays;
    CivilCountsDays(last);
    assert CivilFromDays(last + 1).y == 10000;
    if days < last {
      CivilKeepsOrder(days, last);
    } else if days > last + 1 {
      CivilKeepsOrder(last + 1, days);
    }
    if days > 0 {
      CivilKeepsOrder(0, days);
    }
  }

  /** A year outside 0..9999 gives a text no reader accepts: too long, or with a sign. */
  lemma OddYearUnreadable(t: Stamp)
    requires !(0 <= t.date.y < 10000)
    requires 1 <= t.date.m <= 12 && 1 <= t.date.d <= 31 && 0 <= t.h < 24 && 0 <= t.mi < 60 && 0 <= t.sec < 60
    ensures ReadStamp(Show(t)).None?
  {
    PaddedTwo(t.date.m);
    PaddedTwo(t.date.d);
    PaddedTwo(t.h);
    PaddedTwo(t.mi);
    PaddedTwo(t.sec);
    var year := Padded(t.date.y, 4);
    if t.date.y < 0 {
      assert year[0] == '-' && Show(t)[0] == '-';
    } else {
      assert |year| >= 5 && |Show(t)| == |year| + 16;
    }
  }

  /** The stamp of every instant up to the end of the year 9999 reads back as that instant,
      and no later one does: their stamps are not readable at all. */
  lemma StampRoundTrip(unix: U64)
    ensures ParseRfc3339ToUnix(UnixToRfc3339(unix)) == (if unix <= LAST_STAMP then Some(unix) else None)
  {
    var n := AsI64(unix);
    var t := StampOf(n);
    SecondsOfStamp(n);
    YearRange(n / 86400);
    assert n <= LAST_STAMP <==> n / 86400 <= LAST_STAMP / 86400;
    if 0 <= t.date.y < 10000 {
      ReadShow(t);
    } else {
      OddYearUnreadable(t);
    }
  }

  lemma InRangeStamp(unix: nat)
    requires unix <= LAST_STAMP
    ensures InRange(StampOf(unix))
  {
    SecondsOfStamp(unix);
    YearRange(unix / 86400);
  }

  /** A stamp the reader accepts never overflows the clock. */
  lemma ReadableSeconds(t: Stamp)
    requires InRange(t)
    ensures Seconds(t) < 0x8000_0000_0000_0000
  {
  }

  /** The reader also takes 30 February and second 60; exactly on those it is not undone by
      the printer. */
  lemma ReadRoundTrip(s: string)
    requires ParseRfc3339ToUnix(s).Some?
    ensures var t := ReadStamp(s).value;
            var unix := ParseRfc3339ToUnix(s).value;
            && unix < 0x8000_0000_0000_0000
            && (UnixToRfc3339(unix) == s <==> ValidDate(t.date) && t.sec < 60)
  {
    hide Show, CivilFromDays, DaysFromCivil, ValidDate;
    var t := ReadStamp(s).value;
    ShowRead(s);
    ReadableSeconds(t);
    hide ReadStamp;
    var unix := Seconds(t);
    if ValidDate(t.date) && t.sec < 60 {
      StampOfSeconds(t);
    } else if UnixToRfc3339(unix) == s {
      SecondsOfStamp(unix);
      StampRoundTrip(unix);
      InRangeStamp(unix);
      ReadShow(StampOf(unix));
    }
  }

  /** What is printed is the instant itself, for the upper half of the range the one 2^64 seconds earlier. */
  lemma PrintedInstant(unix: U64)
    ensures exists t: Stamp :: UnixToRfc3339(unix) == Show(t) && ValidDate(t.date) && 0 <= t.h < 24 && 0 <= t.mi < 60 && 0 <= t.sec < 60
              && Seconds(t) == if unix < 0x8000_0000_0000_0000 then unix else unix - 0x1_0000_0000_0000_0000
  {
    SecondsOfStamp(AsI64(unix));
    hide Show;
    assert UnixToRfc3339(unix) == Show(StampOf(AsI64(unix)));
  }

  // ---- the order of the texts is the order of the instants ----

  /** Rust's order on strings: by the first byte that differs, a proper prefix first. */
  predicate Less(a: string, b: string) {
    if b == "" then false
    else if a == "" then true
    else a[0] < b[0] || (a[0] == b[0] && Less(a[1..], b[1..]))
  }

  lemma {:induction false} LessConcat(a: string, b: string, c: string, d: string)
    requires |a| == |b|
    ensures Less(a + c, b + d) <==> Less(a, b) || (a == b && Less(c, d))
  {
    if a == "" {
      assert a + c == c && b + d == d;
    } else {
      assert (a + c)[1..] == a[1..] + c && (b + d)[1..] == b[1..] + d;
      LessConcat(a[1..], b[1..], c, d);
      assert a == b <==> a[0] == b[0] && a[1..] == b[1..];
    }
  }

  lemma LessTwo(m: int, n: int)
    requires 0 <= m < 100 && 0 <= n < 100
    ensures Less(Two(m), Two(n)) <==> m < n
    ensures Two(m) == Two(n) <==> m == n
  {
    var a, b := Two(m), Two(n);
    assert a[1..] == [Digit(m % 10)] && b[1..] == [Digit(n % 10)];
    assert a[1..][1..] == "" && b[1..][1..] == "";
    assert Less(a[1..], b[1..]) <==> m % 10 < n % 10;
    assert m == 10 * (m / 10) + m % 10 && n == 10 * (n / 10) + n % 10;
    assert a[0] == b[0] <==> m / 10 == n / 10;
    assert a[1] == b[1] <==> m % 10 == n % 10;
  }

  lemma DigitsBelow(a: int, b: int, c: int, d: int)
    requires 0 <= a < 10 && 0 <= b < 10 && 0 <= c < 10 && 0 <= d < 10
    ensures var n := 1000 * a + 100 * b + 10 * c + d;
            && n / 100 == 10 * a + b && n % 100 == 10 * c + d
            && (10 * a + b) / 10 == a && (10 * a + b) % 10 == b && (10 * c + d) / 10 == c && (10 * c + d) % 10 == d
  {
  }

  lemma FourIsTwoTwos(n: int)
    requires 0 <= n < 10000
    ensures Four(n) == Two(n / 100) + Two(n % 100)
  {
    var a, b, c, d := n / 1000, n / 100 % 10, n / 10 % 10, n % 10;
    FourDigits(n);
    DigitsBelow(a, b, c, d);
    hide Digit;
  }

  lemma LessFour(m: int, n: int)
    requires 0 <= m < 10000 && 0 <= n < 10000
    ensures Less(Four(m), Four(n)) <==> m < n
    ensures Four(m) == Four(n) <==> m == n
  {
    FourIsTwoTwos(m);
    FourIsTwoTwos(n);
    NumberFour(m);
    NumberFour(n);
    assert |Two(m / 100)| == |Two(n / 100)| == 2;
    hide Four, Two, Less;
    LessConcat(Two(m / 100), Two(n / 100), Two(m % 100), Two(n % 100));
    LessTwo(m / 100, n / 100);
    LessTwo(m % 100, n % 100);
  }

  /** One two-digit field with the separator after it, ahead of the rest of the text. */
  lemma LessField(m: int, n: int, sep: string, c: string, d: string)
    requires 0 <= m < 100 && 0 <= n < 100
    ensures Less(Two(m) + (sep + c), Two(n) + (sep + d)) <==> m < n || (m == n && Less(c, d))
  {
    LessConcat(Two(m), Two(n), sep + c, sep + d);
    LessConcat(sep, sep, c, d);
    LessTwo(m, n);
    LessIrreflexive(sep);
  }

  lemma {:induction false} LessIrreflexive(a: string)
    ensures !Less(a, a)
  {
    if a != "" {
      LessIrreflexive(a[1..]);
    }
  }

  function Clock(t: Stamp): string
    requires InRange(t)
  {
    Two(t.h) + (":" + (Two(t.mi) + (":" + (Two(t.sec) + ("Z" + "")))))
  }

  function DayAndClock(t: Stamp): string
    requires InRange(t)
  {
    Two(t.date.m) + ("-" + (Two(t.date.d) + ("T" + Clock(t))))
  }

  predicate StampBefore(a: Stamp, b: Stamp) {
    Before(a.date, b.date)
    || (a.date == b.date && (a.h < b.h || (a.h == b.h && (a.mi < b.mi || (a.mi == b.mi && a.sec < b.sec)))))
  }

  lemma LessClock(a: Stamp, b: Stamp)
    requires InRange(a) && InRange(b)
    ensures Less(Clock(a), Clock(b))
       <==> a.h < b.h || (a.h == b.h && (a.mi < b.mi || (a.mi == b.mi && a.sec < b.sec)))
  {
    LessField(a.sec, b.sec, "Z", "", "");
    LessField(a.mi, b.mi, ":", Two(a.sec) + ("Z" + ""), Two(b.sec) + ("Z" + ""));
    LessField(a.h, b.h, ":", Two(a.mi) + (":" + (Two(a.sec) + ("Z" + ""))), Two(b.mi) + (":" + (Two(b.sec) + ("Z" + ""))));
  }

  lemma FixedInFields(a: Stamp)
    requires InRange(a)
    ensures Fixed(a) == Four(a.date.y) + ("-" + DayAndClock(a))
  {
    hide Two, Four;
  }

  lemma LessFixed(a: Stamp, b: Stamp)
    requires InRange(a) && InRange(b)
    ensures Less(Fixed(a), Fixed(b)) <==> StampBefore(a, b)
  {
    assert |Four(a.date.y)| == |Four(b.date.y)|;
    hide Less, Two, Four, Fixed, Clock;
    LessClock(a, b);
    LessField(a.date.d, b.date.d, "T", Clock(a), Clock(b));
    LessField(a.date.m, b.date.m, "-", Two(a.date.d) + ("T" + Clock(a)), Two(b.date.d) + ("T" + Clock(b)));
    FixedInFields(a);
    FixedInFields(b);
    LessConcat(Four(a.date.y), Four(b.date.y), "-" + DayAndClock(a), "-" + DayAndClock(b));
    LessConcat("-", "-", DayAndClock(a), DayAndClock(b));
    LessIrreflexive("-");
    LessFour(a.date.y, b.date.y);
  }

  lemma ClockKeepsOrder(m: int, n: int)
    requires 0 <= m < n < 86400
    ensures m / 3600 < n / 3600 || (m / 3600 == n / 3600
              && (m % 3600 / 60 < n % 3600 / 60 || (m % 3600 / 60 == n % 3600 / 60 && m % 60 < n % 60)))
  {
    ClockSeconds(m);
    ClockSeconds(n);
  }

  lemma DayAndRest(m: int, n: int)
    requires m < n
    ensures m / 86400 < n / 86400 || (m / 86400 == n / 86400 && m % 86400 < n % 86400)
  {
  }

  lemma StampKeepsOrder(m: int, n: int)
    requires m < n
    ensures StampBefore(StampOf(m), StampOf(n))
  {
    hide CivilFromDays;
    DayAndRest(m, n);
    if m / 86400 < n / 86400 {
      CivilKeepsOrder(m / 86400, n / 86400);
    } else {
      ClockKeepsOrder(m % 86400, n % 86400);
    }
  }

  /** What the timeline sorts rely on: comparing two stamps as texts compares the instants. */
  lemma StampsSortByTime(m: U64, n: U64)
    requires m <= LAST_STAMP && n <= LAST_STAMP
    ensures Less(UnixToRfc3339(m), UnixToRfc3339(n)) <==> m < n
  {
    hide Show, Fixed, Less, CivilFromDays, DaysFromCivil, ValidDate;
    var a, b := StampOf(m), StampOf(n);
    InRangeStamp(m);
    InRangeStamp(n);
    ShowFixed(a);
    ShowFixed(b);
    LessFixed(a, b);
    if m < n {
      StampKeepsOrder(m, n);
    } else if n < m {
      StampKeepsOrder(n, m);
    }
  }
}
