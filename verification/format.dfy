/** The two display helpers: `truncateText` (`src/lib/index.ts`) and
    `fmtTime` (`src/lib/utils.ts`), the latter over whole non-negative
    seconds. */
module Format {
  import opened Nullable

  /* --- truncateText --- */

  /** `truncateText(text, maxLength = 20)`. */
  function TruncateText(text: string, maxLength: nat := 20): (r: string)
    ensures |text| <= maxLength ==> r == text
    ensures |text| > maxLength ==> |r| == maxLength + 3 && r[maxLength..] == "..."
    ensures |r| <= maxLength + 3
    ensures var keep := if |text| < maxLength then |text| else maxLength;
            keep <= |r| && r[..keep] == text[..keep]
  {
    if |text| <= maxLength then text else text[..maxLength] + "..."
  }

  /** A truncated text is not truncated further: truncating twice with the
      same limit is truncating once. */
  lemma TruncateIdempotent(text: string, maxLength: nat)
    ensures TruncateText(TruncateText(text, maxLength), maxLength) == TruncateText(text, maxLength)
  {
    if |text| > maxLength {
      var r := TruncateText(text, maxLength);
      assert r[..maxLength] == text[..maxLength];
      assert r == r[..maxLength] + r[maxLength..];
    }
  }

  /** The limit is 20 characters unless given. */
  lemma TruncateDefault(text: string)
    ensures TruncateText(text) == TruncateText(text, 20)
    ensures |text| > 20 ==> |TruncateText(text)| == 23
  {
  }

  /* --- decimal digits --- */

  predicate IsDigit(c: char) {
    '0' <= c <= '9'
  }

  predicate IsDigits(s: string) {
    forall k :: 0 <= k < |s| ==> IsDigit(s[k])
  }

  function DigitChar(d: nat): (c: char)
    requires d < 10
    ensures IsDigit(c) && c as int - '0' as int == d
  {
    (('0' as int) + d) as char
  }

  /** The number a digit string denotes; leading zeros do not count. */
  function DecimalValue(s: string): nat
    requires IsDigits(s)
    decreases |s|
  {
    if |s| == 0 then 0
    else DecimalValue(s[..|s| - 1]) * 10 + (s[|s| - 1] as int - '0' as int)
  }

  /** `n.toString()` for a natural number: its decimal digits with no
      leading zero. */
  function NatToString(n: nat): (r: string)
    ensures |r| >= 1 && IsDigits(r) && DecimalValue(r) == n
    ensures |r| > 1 ==> r[0] != '0'
    ensures n < 10 ==> |r| == 1
    ensures n < 100 ==> |r| <= 2
    decreases n
  {
    if n < 10 then [DigitChar(n)]
    else
      var r := NatToString(n / 10) + [DigitChar(n % 10)];
      assert r[..|r| - 1] == NatToString(n / 10);
      r
  }

  function Zeros(k: nat): (r: string)
    ensures |r| == k && IsDigits(r)
    ensures forall i :: 0 <= i < k ==> r[i] == '0'
  {
    seq(k, _ => '0')
  }

  /** `s.padStart(width, "0")`. */
  function PadStart(s: string, width: nat): (r: string)
    ensures |r| == if |s| >= width then |s| else width
    ensures r == Zeros(|r| - |s|) + s
  {
    if |s| >= width then
      assert Zeros(0) + s == s;
      s
    else Zeros(width - |s|) + s
  }

  lemma {:induction false} ZerosValue(k: nat)
    ensures DecimalValue(Zeros(k)) == 0
  {
    if k > 0 {
      assert Zeros(k)[..k - 1] == Zeros(k - 1);
      ZerosValue(k - 1);
    }
  }

  /** Leading zeros do not change a decimal value. */
  lemma {:induction false} LeadingZeros(k: nat, s: string)
    requires IsDigits(s)
    ensures IsDigits(Zeros(k) + s) && DecimalValue(Zeros(k) + s) == DecimalValue(s)
    decreases |s|
  {
    var z := Zeros(k);
    assert IsDigits(z + s) by {
      forall i | 0 <= i < |z + s| ensures IsDigit((z + s)[i]) {
        if i >= k { assert (z + s)[i] == s[i - k]; }
      }
    }
    if |s| == 0 {
      assert z + s == z;
      ZerosValue(k);
    } else {
      var init := s[..|s| - 1];
      assert (z + s)[..|z + s| - 1] == z + init;
      LeadingZeros(k, init);
    }
  }

  /** A zero-padded number has the number's value. */
  lemma PaddedValue(n: nat, width: nat)
    ensures var p := PadStart(NatToString(n), width);
            IsDigits(p) && DecimalValue(p) == n
  {
    var s := NatToString(n);
    LeadingZeros(|PadStart(s, width)| - |s|, s);
  }

  /* --- fmtTime --- */

  /** The colon between the two fields. */
  lemma {:induction false} SplitAtColon(mm: string, ss: string)
    ensures var r := mm + ":" + ss;
            |r| == |mm| + 1 + |ss| && r[|mm|] == ':' && r[..|mm|] == mm && r[|mm| + 1..] == ss
  {
  }

  /** `r` reads "mm:ss": a minutes field of digits worth `minutes`, a
      colon, and two digits worth `seconds`. */
  predicate IsClock(r: string, minutes: nat, seconds: nat) {
    && |r| >= 4 && r[|r| - 3] == ':'
    && IsDigits(r[..|r| - 3]) && DecimalValue(r[..|r| - 3]) == minutes
    && IsDigits(r[|r| - 2..]) && DecimalValue(r[|r| - 2..]) == seconds
  }

  lemma ZeroClock()
    ensures IsClock("00:00", 0, 0)
  {
    assert "00:00"[..2] == "00" && "00:00"[3..] == "00";
    assert "00"[..1] == "0" && "0"[..0] == "";
  }

  lemma GeneralClock(s: nat)
    ensures var r := PadStart(NatToString(s / 60), 2) + ":" + PadStart(NatToString(s % 60), 2);
            IsClock(r, s / 60, s % 60) && (s < 6000 <==> |r| == 5)
  {
    var mm := PadStart(NatToString(s / 60), 2);
    var ss := PadStart(NatToString(s % 60), 2);
    PaddedValue(s / 60, 2);
    PaddedValue(s % 60, 2);
    SplitAtColon(mm, ss);
    MinutesWidth(s / 60);
  }

  /** `fmtTime(s)` for whole seconds `s >= 0`: minutes (not wrapped into
      hours) and seconds, each zero-padded to two digits. */
  function FmtTime(s: nat): (r: string)
    ensures IsClock(r, s / 60, s % 60) && |r| >= 5
    ensures s < 6000 <==> |r| == 5
    ensures |r| > 5 ==> r[0] != '0'
  {
    if s == 0 then
      ZeroClock();
      "00:00"
    else
      GeneralClock(s);
      WideMinutes(s / 60);
      PadStart(NatToString(s / 60), 2) + ":" + PadStart(NatToString(s % 60), 2)
  }

  /** A minutes field wider than two characters is the bare number, so
      it never starts with a zero. */
  lemma WideMinutes(m: nat)
    ensures var mm := PadStart(NatToString(m), 2);
            |mm| > 2 ==> mm[0] != '0'
  {
  }

  /** The minutes field is two characters wide exactly below 100 minutes. */
  lemma MinutesWidth(m: nat)
    ensures m < 100 <==> |PadStart(NatToString(m), 2)| == 2
  {
    if m >= 100 {
      NatToStringLong(m);
    }
  }

  lemma {:induction false} NatToStringLong(n: nat)
    requires n >= 100
    ensures |NatToString(n)| >= 3
  {
    assert NatToString(n) == NatToString(n / 10) + [DigitChar(n % 10)];
    assert n / 10 >= 10;
  }

  /** The zero case agrees with the general formula. */
  lemma ZeroIsGeneral()
    ensures FmtTime(0) == PadStart(NatToString(0), 2) + ":" + PadStart(NatToString(0), 2)
  {
    assert FmtTime(0) == "00:00";
    assert NatToString(0) == "0";
    assert Zeros(1) == "0";
  }

  /** Reads "mm:ss" back as `mm * 60 + ss`; the minutes field may be of
      any width, the seconds field has two digits. */
  function ParseClock(t: string): (r: Option<nat>)
    ensures r.Some? ==> |t| >= 4 && t[|t| - 3] == ':'
  {
    if |t| < 4 || t[|t| - 3] != ':' || !IsDigits(t[..|t| - 3]) || !IsDigits(t[|t| - 2..]) then None
    else Some(DecimalValue(t[..|t| - 3]) * 60 + DecimalValue(t[|t| - 2..]))
  }

  lemma ParseClockReads(r: string, minutes: nat, seconds: nat)
    requires IsClock(r, minutes, seconds)
    ensures ParseClock(r) == Some(minutes * 60 + seconds)
  {
  }

  lemma DivMod60(s: nat)
    ensures (s / 60) * 60 + s % 60 == s
  {
  }

  /** The displayed clock determines the time. */
  lemma FmtTimeRoundTrip(s: nat)
    ensures ParseClock(FmtTime(s)) == Some(s)
  {
    var r := FmtTime(s);
    ParseClockReads(r, s / 60, s % 60);
    DivMod60(s);
  }

  /** Hence different times are displayed differently. */
  lemma FmtTimeInjective(a: nat, b: nat)
    requires FmtTime(a) == FmtTime(b)
    ensures a == b
  {
    FmtTimeRoundTrip(a);
    FmtTimeRoundTrip(b);
  }

  /** Below 100 minutes the clock is "mm:ss" exactly. */
  lemma ShortClockShape(s: nat)
    requires s < 6000
    ensures |FmtTime(s)| == 5 && FmtTime(s)[2] == ':'
  {
  }

  /** Minutes are not wrapped into hours. */
  lemma SixtyMinutes()
    ensures FmtTime(3600) == "60:00"
  {
    assert 3600 / 60 == 60 && 3600 % 60 == 0;
    assert NatToString(6) == "6";
    assert NatToString(60) == "60";
    assert PadStart("60", 2) == "60" by { assert Zeros(0) == ""; }
    assert NatToString(0) == "0";
    assert PadStart("0", 2) == "00" by { assert Zeros(1) == "0"; }
  }
}
