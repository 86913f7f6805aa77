/** Small display formatters of the older front end: the salary range of a
  * job card, and the interview controls with their `m:ss` countdown. */
module Formatters {
  import opened Wrappers
  import opened JsStrings

  // --------------------------------------------------------------- salary

  /** `formatSalary`: the range in the job's currency, "NPR" when it has
    * none; "Not specified" exactly when neither bound is given. */
  function FormatSalary(min: Option<string>, max: Option<string>, currency: Option<string>): (r: string)
    ensures r == "Not specified" <==> !Truthy(min) && !Truthy(max)
    ensures Truthy(min) && Truthy(max) ==>
              r == CurrencyOf(currency) + " " + min.value + " - " + CurrencyOf(currency) + " " + max.value
    ensures Truthy(min) && !Truthy(max) ==> r == "From " + CurrencyOf(currency) + " " + min.value
    ensures !Truthy(min) && Truthy(max) ==> r == "Up to " + CurrencyOf(currency) + " " + max.value
  {
    if !Truthy(min) && !Truthy(max) then "Not specified"
    else
      var curr := CurrencyOf(currency);
      if Truthy(min) && Truthy(max) then
        var r := curr + " " + min.value + " - " + curr + " " + max.value;
        assert r[|curr| + |min.value| + 2] == '-';
        assert forall i :: 0 <= i < |"Not specified"| ==> "Not specified"[i] != '-';
        r
      else if Truthy(min) then
        assert ("From " + curr + " " + min.value)[0] == 'F';
        "From " + curr + " " + min.value
      else if Truthy(max) then
        assert ("Up to " + curr + " " + max.value)[0] == 'U';
        "Up to " + curr + " " + max.value
      else "Not specified"
  }

  /** `currency || "NPR"`. */
  function CurrencyOf(currency: Option<string>): (c: string)
    ensures c != ""
    ensures Truthy(currency) ==> c == currency.value
  {
    if Truthy(currency) then currency.value else "NPR"
  }

  // ---------------------------------------------------------------- timer

  /** `a % b` in JavaScript: the remainder takes the sign of `a`. */
  function JsRem(a: int, b: int): (r: int)
    requires b > 0
    ensures a >= 0 ==> 0 <= r < b && r == a % b
    ensures a < 0 ==> -b < r <= 0
  {
    if a >= 0 then a % b else -((-a) % b)
  }

  /** `String(n).padStart(2, '0')`. */
  function PadStart2(s: string): (r: string)
    ensures |s| >= 2 ==> r == s
    ensures |s| < 2 ==> |r| == 2 && r[2 - |s|..] == s
  {
    if |s| >= 2 then s else if |s| == 1 then "0" + s else "00"
  }

  /** `formatTime`: whole minutes, a colon, and the seconds of the minute
    * padded to two digits; `Math.floor` and `/` on a positive divisor
    * agree for every integer. */
  function FormatTime(ms: int): (r: string)
    ensures ms >= 0 ==> r == NatToString(ms / 1000 / 60) + ":" + PadStart2(NatToString(ms / 1000 % 60))
  {
    var totalSeconds := ms / 1000;
    var minutes := totalSeconds / 60;
    var seconds := JsRem(totalSeconds, 60);
    IntToString(minutes) + ":" + PadStart2(IntToString(seconds))
  }

  /** The countdown shows five minutes as "5:00". */
  lemma FiveMinutes()
    ensures FormatTime(300000) == "5:00"
  {
    assert NatToString(5) == "5";
    assert NatToString(0) == "0";
  }

  /** A single digit padded with a leading zero reads back as itself. */
  lemma ZeroPaddedDigit(d: nat)
    requires d < 10
    ensures var p := PadStart2(NatToString(d));
            p == ['0', DigitChar(d)] && ParseInt(p) == Some(d)
  {
    var p := PadStart2(NatToString(d));
    DigitsValueOfNat(d);
    assert p[..1] == "0" && DigitsValue("0", 10) == 0;
    assert DigitsValue(p, 10) == d;
    ParseIntUnsigned(p);
  }

  /** A number from 10 to 59 prints as two digits that read back as it. */
  lemma TwoDigits(n: nat)
    requires 10 <= n < 60
    ensures var t := NatToString(n);
            |t| == 2 && IsDigit(t[0]) && IsDigit(t[1]) && ParseInt(t) == Some(n)
  {
    DigitsValueOfNat(n);
    assert NatToString(n) == NatToString(n / 10) + [DigitChar(n % 10)];
    ParseIntUnsigned(NatToString(n));
  }

  /** The two digits of a number below 60, padded, read back as that
    * number. */
  lemma PaddedReadsBack(ss: nat)
    requires ss < 60
    ensures var p := PadStart2(NatToString(ss));
            |p| == 2 && IsDigit(p[0]) && IsDigit(p[1]) && ParseInt(p) == Some(ss)
  {
    if ss < 10 {
      ZeroPaddedDigit(ss);
      assert IsDigit(NatToString(ss)[0]);
    } else {
      TwoDigits(ss);
    }
  }

  /** Reading the displayed time back: the text splits at its one colon
    * into the minutes and two-digit seconds, and they give back the
    * whole seconds remaining. */
  lemma FormatTimeReadsBack(ms: int)
    requires ms >= 0
    ensures var parts := Split(FormatTime(ms), ':');
            && |parts| == 2 && |parts[1]| == 2
            && ParseInt(parts[0]).Some? && ParseInt(parts[1]).Some?
            && 0 <= ParseInt(parts[1]).value < 60
            && 60 * ParseInt(parts[0]).value + ParseInt(parts[1]).value == ms / 1000
  {
    var m := ms / 1000 / 60;
    var ss := ms / 1000 % 60;
    TimeParts(m, ss);
    PaddedReadsBack(ss);
    ParseIntOfIntToString(m);
  }

  /** The timer text splits at its one colon into the minutes and the
    * padded seconds. */
  lemma {:induction false} TimeParts(m: nat, ss: nat)
    requires ss < 60
    ensures Split(NatToString(m) + ":" + PadStart2(NatToString(ss)), ':') == [NatToString(m), PadStart2(NatToString(ss))]
  {
    var st := PadStart2(NatToString(ss));
    PaddedReadsBack(ss);
    assert forall i :: 0 <= i < |st| ==> IsDigit(st[i]);
    NoColonInDigits(NatToString(m));
    NoColonInDigits(st);
    ColonSplit(NatToString(m), st);
  }

  lemma {:induction false} NoColonInDigits(s: string)
    requires forall i :: 0 <= i < |s| ==> IsDigit(s[i])
    ensures ':' !in s
  {
    forall i | 0 <= i < |s| ensures s[i] != ':' {
      assert IsDigit(s[i]);
    }
  }

  lemma {:induction false} ColonSplit(a: string, b: string)
    requires ':' !in a && ':' !in b
    ensures Split(a + ":" + b, ':') == [a, b]
  {
    SplitAtFirst(a, ':', b);
    SplitNoSeparator(b, ':');
  }

  // ------------------------------------------------------------- controls

  /** What the interview controls show: the status label, the timer and
    * End button while connected, the Start button (disabled on request)
    * while not. */
  datatype ControlsView = ControlsView(status: string, timer: Option<string>, endButton: bool,
                                       startButton: bool, startDisabled: bool, autoEndNote: bool)

  /** The status label: speaking takes priority over connected. */
  function StatusLabel(isSpeaking: bool, isConnected: bool): (l: string)
    ensures isSpeaking ==> l == "Interviewer Speaking"
    ensures !isSpeaking && isConnected ==> l == "Interview in Progress"
    ensures !isSpeaking && !isConnected ==> l == "Ready to Start"
  {
    if isSpeaking then "Interviewer Speaking"
    else if isConnected then "Interview in Progress"
    else "Ready to Start"
  }

  function Controls(isConnected: bool, isSpeaking: bool, timeRemaining: int, disabled: bool): (v: ControlsView)
    ensures v.status == StatusLabel(isSpeaking, isConnected)
    ensures v.timer.Some? <==> isConnected
    ensures v.timer.Some? ==> v.timer.value == FormatTime(timeRemaining)
    ensures v.endButton <==> isConnected
    ensures v.startButton <==> !isConnected
    ensures v.autoEndNote <==> isConnected
    ensures v.startDisabled == disabled
  {
    ControlsView(
      StatusLabel(isSpeaking, isConnected),
      if isConnected then Some(FormatTime(timeRemaining)) else None,
      isConnected, !isConnected, disabled, isConnected)
  }

  /** Exactly one of Start and End is offered. */
  lemma OneButtonOffered(isConnected: bool, isSpeaking: bool, timeRemaining: int, disabled: bool)
    ensures var v := Controls(isConnected, isSpeaking, timeRemaining, disabled);
            v.startButton != v.endButton
  {
  }
}
