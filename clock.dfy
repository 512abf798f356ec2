/** The session countdown: whole seconds remaining and their `m:ss` rendering. */
module Clock {

  predicate IsDigit(c: char) {
    '0' <= c <= '9'
  }

  predicate AllDigits(s: string) {
    forall i :: 0 <= i < |s| ==> IsDigit(s[i])
  }

  function DigitChar(d: int): (c: char)
    requires 0 <= d < 10
    ensures IsDigit(c) && DigitValue(c) == d
  {
    ('0' as int + d) as char
  }

  function DigitValue(c: char): int {
    c as int - '0' as int
  }

  /** The decimal rendering of a number, as JavaScript's `toString` writes a non-negative integer. */
  function DecimalText(n: nat): string {
    if n < 10 then [DigitChar(n)] else DecimalText(n / 10) + [DigitChar(n % 10)]
  }

  /** A rendered number is a non-empty string of digits, one digit long exactly below 10, and
      with no leading zero except for 0 itself. */
  lemma {:induction false} DecimalTextDigits(n: nat)
    ensures var s := DecimalText(n);
      |s| >= 1 && AllDigits(s) && (s[0] == '0' ==> n == 0) && (n < 10 <==> |s| == 1)
  {
    if n >= 10 {
      DecimalTextDigits(n / 10);
    }
  }

  /** The number a string of digits denotes: the reference reading of `DecimalText`. */
  function DecimalValue(s: string): int
    requires AllDigits(s)
  {
    if s == [] then 0 else DecimalValue(s[..|s| - 1]) * 10 + DigitValue(s[|s| - 1])
  }

  /** Reading back a rendered number gives the number. */
  lemma {:induction false} DecimalRoundTrip(n: nat)
    ensures AllDigits(DecimalText(n)) && DecimalValue(DecimalText(n)) == n
  {
    DecimalTextDigits(n);
    if n >= 10 {
      DecimalRoundTrip(n / 10);
      var s := DecimalText(n);
      assert s[..|s| - 1] == DecimalText(n / 10);
    }
  }

  /** JavaScript's `padStart(2, '0')`: prefix zeros until the text is two characters long. */
  function PadStart2(s: string): (r: string)
    ensures |r| == if |s| >= 2 then |s| else 2
    ensures r[|r| - |s|..] == s
    ensures forall i :: 0 <= i < |r| - |s| ==> r[i] == '0'
  {
    if |s| >= 2 then s else seq(2 - |s|, _ => '0') + s
  }

  /** A number below 100, padded to two characters, is its tens digit and its units digit. */
  lemma PadTwoDigits(n: nat)
    requires n < 100
    ensures PadStart2(DecimalText(n)) == [DigitChar(n / 10), DigitChar(n % 10)]
  {
    if n >= 10 {
      assert DecimalText(n / 10) == [DigitChar(n / 10)];
    }
  }

  /** An integer as the counter element shows it. */
  function IntText(i: int): string {
    if i < 0 then ['-'] + DecimalText(-i) else DecimalText(i)
  }

  /** The counter text reads back as the integer: its digits denote the number, after a minus
      sign when the number is negative. */
  lemma IntTextReadsBack(i: int)
    ensures var s := IntText(i);
      if i >= 0 then AllDigits(s) && DecimalValue(s) == i
      else |s| >= 2 && s[0] == '-' && AllDigits(s[1..]) && DecimalValue(s[1..]) == -i
  {
    if i < 0 {
      DecimalRoundTrip(-i);
      DecimalTextDigits(-i);
      assert IntText(i)[1..] == DecimalText(-i);
    } else {
      DecimalRoundTrip(i);
    }
  }

  /** A text of the form digits, colon, two digits. */
  predicate ClockShaped(s: string) {
    |s| >= 4 && s[|s| - 3] == ':' && AllDigits(s[..|s| - 3]) && AllDigits(s[|s| - 2..])
  }

  /** Minutes digits, a colon and two seconds digits make a clock-shaped text whose parts are
      found again at their positions. */
  lemma JoinClock(m: string, ss: string)
    requires |m| >= 1 && AllDigits(m) && |ss| == 2 && AllDigits(ss)
    ensures var r := m + [':'] + ss;
      ClockShaped(r) && r[..|r| - 3] == m && r[|r| - 2] == ss[0] && r[|r| - 1] == ss[1]
  {
    var r := m + [':'] + ss;
    assert r[..|r| - 3] == m;
    assert r[|r| - 2..] == ss;
  }

  /** The `m:ss` text of a number of seconds: the minutes in decimal, a colon, and the
      remaining seconds padded to two characters. */
  function ClockText(secs: nat): string {
    DecimalText(secs / 60) + [':'] + PadStart2(DecimalText(secs % 60))
  }

  /** The clock text is clock-shaped: its minutes field reads back as the whole minutes and its
      two seconds digits as the seconds within the minute. */
  lemma ClockTextParts(secs: nat)
    ensures var s := ClockText(secs);
      ClockShaped(s) && DecimalValue(s[..|s| - 3]) == secs / 60
      && DigitValue(s[|s| - 2]) * 10 + DigitValue(s[|s| - 1]) == secs % 60
  {
    var m, ss := DecimalText(secs / 60), PadStart2(DecimalText(secs % 60));
    PadTwoDigits(secs % 60);
    assert ss == [DigitChar(secs % 60 / 10), DigitChar(secs % 60 % 10)];
    DecimalRoundTrip(secs / 60);
    DecimalTextDigits(secs / 60);
    JoinClock(m, ss);
    assert ClockText(secs) == m + [':'] + ss;
  }

  /** The seconds an `m:ss` text denotes: 60 times the minutes plus the seconds. */
  function ClockValue(s: string): int
    requires ClockShaped(s)
  {
    60 * DecimalValue(s[..|s| - 3]) + DigitValue(s[|s| - 2]) * 10 + DigitValue(s[|s| - 1])
  }

  /** Reading back an `m:ss` text gives the seconds it was made from, and the seconds field is
      below 60, so the text is unique for each number of seconds. */
  lemma ClockRoundTrip(secs: nat)
    ensures var s := ClockText(secs);
      ClockShaped(s) && ClockValue(s) == secs && DigitValue(s[|s| - 2]) * 10 + DigitValue(s[|s| - 1]) < 60
  {
    ClockTextParts(secs);
  }

  /** Different numbers of seconds are shown as different texts. */
  lemma ClockTextInjective(a: nat, b: nat)
    requires ClockText(a) == ClockText(b)
    ensures a == b
  {
    ClockRoundTrip(a);
    ClockRoundTrip(b);
  }

  /** The whole seconds left of a session of `duration` seconds after `elapsedMs` milliseconds:
      the elapsed time is rounded down to whole seconds and the result never drops below 0. */
  function Remaining(duration: int, elapsedMs: int): (r: int)
    ensures r >= 0
    ensures r == 0 <==> elapsedMs >= duration * 1000
  {
    var elapsed := elapsedMs / 1000;
    if duration - elapsed > 0 then duration - elapsed else 0
  }

  /** A positive remainder `r` is shown exactly during the second that starts `duration - r`
      seconds into the session. */
  lemma RemainingSecond(duration: int, elapsedMs: int)
    ensures var r := Remaining(duration, elapsedMs);
      r > 0 ==> (duration - r) * 1000 <= elapsedMs < (duration - r + 1) * 1000
  {
  }

  /** What one timer update produces after the introduction: the session ends once no whole
      second is left; otherwise the remaining seconds are shown. */
  datatype TimerOutcome = EndSession | Show(text: string)

  function TimerUpdate(duration: int, elapsedMs: int): (o: TimerOutcome)
    ensures o.EndSession? <==> elapsedMs >= duration * 1000
  {
    var r := Remaining(duration, elapsedMs);
    if r <= 0 then EndSession else Show(ClockText(r))
  }

  /** While the session goes on, the timer shows a clock text that reads back as the whole
      seconds remaining. */
  lemma TimerShowsRemaining(duration: int, elapsedMs: int)
    ensures var o := TimerUpdate(duration, elapsedMs);
      o.Show? ==> ClockShaped(o.text) && ClockValue(o.text) == Remaining(duration, elapsedMs) > 0
  {
    var r := Remaining(duration, elapsedMs);
    if r > 0 {
      ClockTextParts(r);
      ClockRoundTrip(r);
    }
  }
}
