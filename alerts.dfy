/** What the monitor shows for the vital signs: the three values (or "--"),
    and the alerts with their messages. Every alert is off while nobody is in
    the chair and while its value is not set (0); the heart-rate alert fires
    outside 60..100 bpm, the respiration alert outside 10..30 breaths/min and
    the SpO2 alert below 90 %. */
module Alerts {

  const HrHigh: int := 100
  const HrLow: int := 60
  const RrHigh: int := 30
  const RrLow: int := 10
  const Spo2Low: int := 90

  const Dashes: string := "--"

  /** The decimal digits of n, most significant first. */
  function NatToString(n: nat): (s: string)
    ensures |s| > 0 && forall k :: 0 <= k < |s| ==> '0' <= s[k] <= '9'
  {
    if n < 10 then [Digit(n)] else NatToString(n / 10) + [Digit(n % 10)]
  }

  function Digit(d: nat): char
    requires d < 10
  {
    "0123456789"[d]
  }

  /** The value of a string of decimal digits. */
  function DecimalValue(s: string): int
  {
    if s == [] then 0 else DecimalValue(s[..|s| - 1]) * 10 + (s[|s| - 1] as int - '0' as int)
  }

  /** Printing a number and reading it back gives the number. */
  lemma {:induction false} DecimalRoundTrip(n: nat)
    ensures DecimalValue(NatToString(n)) == n
  {
    if n >= 10 {
      DecimalRoundTrip(n / 10);
      var s := NatToString(n);
      assert s[..|s| - 1] == NatToString(n / 10);
    }
  }

  /** An int as the invariant culture prints it: a minus sign, then digits. */
  function IntToString(x: int): string
  {
    if x < 0 then "-" + NatToString(-x) else NatToString(x)
  }

  /** A printed number is never the "--" placeholder. */
  lemma {:induction false} IntToStringNotDashes(x: int)
    ensures IntToString(x) != Dashes
  {
    var s := IntToString(x);
    if x < 0 {
      assert s[1] == NatToString(-x)[0];
    } else {
      assert '0' <= s[0] <= '9';
    }
  }

  predicate HrAlertActive(noPerson: bool, hr: int)
  {
    !noPerson && hr > 0 && (hr > HrHigh || hr < HrLow)
  }

  predicate RrAlertActive(noPerson: bool, rr: int)
  {
    !noPerson && rr > 0 && (rr > RrHigh || rr < RrLow)
  }

  predicate Spo2AlertActive(noPerson: bool, spo2: int)
  {
    !noPerson && spo2 > 0 && spo2 < Spo2Low
  }

  function HrAlertMessage(noPerson: bool, hr: int): string
  {
    if !HrAlertActive(noPerson, hr) then ""
    else if hr > HrHigh then "Heart rate is high" else "Heart rate is low"
  }

  function RrAlertMessage(noPerson: bool, rr: int): string
  {
    if !RrAlertActive(noPerson, rr) then ""
    else if rr > RrHigh then "Respiration rate is high" else "Respiration rate is low"
  }

  function Spo2AlertMessage(noPerson: bool, spo2: int): string
  {
    if !Spo2AlertActive(noPerson, spo2) then "" else "SpO2 is low"
  }

  function HrDisplay(noPerson: bool, hr: int): string
  {
    if noPerson then Dashes else IntToString(hr)
  }

  function RrDisplay(noPerson: bool, rr: int): string
  {
    if noPerson then Dashes else IntToString(rr)
  }

  function Spo2Display(noPerson: bool, spo2: int): string
  {
    if noPerson || spo2 <= 0 then Dashes else IntToString(spo2)
  }

  /** A message is shown exactly when its alert is active, and it names the
      direction the value left its range in. */
  lemma {:induction false} MessagesMatchAlerts(noPerson: bool, hr: int, rr: int, spo2: int)
    ensures HrAlertMessage(noPerson, hr) != "" <==> HrAlertActive(noPerson, hr)
    ensures RrAlertMessage(noPerson, rr) != "" <==> RrAlertActive(noPerson, rr)
    ensures Spo2AlertMessage(noPerson, spo2) != "" <==> Spo2AlertActive(noPerson, spo2)
    ensures HrAlertActive(noPerson, hr) ==>
              (HrAlertMessage(noPerson, hr) == "Heart rate is high" <==> hr > HrHigh)
    ensures RrAlertActive(noPerson, rr) ==>
              (RrAlertMessage(noPerson, rr) == "Respiration rate is high" <==> rr > RrHigh)
  {
  }

  /** The placeholder is shown exactly when nobody is in the chair (and, for
      SpO2, also while no value has been committed). */
  lemma {:induction false} DisplaysDashes(noPerson: bool, hr: int, rr: int, spo2: int)
    ensures HrDisplay(noPerson, hr) == Dashes <==> noPerson
    ensures RrDisplay(noPerson, rr) == Dashes <==> noPerson
    ensures Spo2Display(noPerson, spo2) == Dashes <==> noPerson || spo2 <= 0
  {
    IntToStringNotDashes(hr);
    IntToStringNotDashes(rr);
    IntToStringNotDashes(spo2);
  }

  /** With nobody in the chair no alert is active and no message is shown. */
  lemma {:induction false} NoAlertsWhenEmpty(hr: int, rr: int, spo2: int)
    ensures !HrAlertActive(true, hr) && !RrAlertActive(true, rr) && !Spo2AlertActive(true, spo2)
    ensures HrAlertMessage(true, hr) == "" && RrAlertMessage(true, rr) == ""
    ensures Spo2AlertMessage(true, spo2) == ""
  {
  }

  /** A committed SpO2 value (always in 90..100) never raises the SpO2 alert. */
  lemma {:induction false} CommittedSpo2NeverAlerts(noPerson: bool, spo2: int)
    requires spo2 == 0 || 90 <= spo2 <= 100
    ensures !Spo2AlertActive(noPerson, spo2)
  {
  }
}
