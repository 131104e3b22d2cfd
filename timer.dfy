/**
 * The exam countdown (components/Timer.tsx): the remaining seconds, the one-second
 * tick, the time-up signal, the low-time warning and the "HH:MM:SS" display.
 */
module Timer {
  import opened Decimal

  /** Below five minutes the display switches to its warning style. */
  const LowThreshold := 300

  class Countdown {
    var secondsRemaining: int

    /** `useState(initialMinutes * 60)` */
    constructor (initialMinutes: int)
      ensures secondsRemaining == initialMinutes * 60
    {
      secondsRemaining := initialMinutes * 60;
    }

    predicate IsLow()
      reads this
    {
      secondsRemaining < LowThreshold
    }

    /**
     * One run of the timer effect followed by what it schedules: with no time left it
     * signals time-up and schedules no tick; otherwise the interval fires once and
     * takes exactly one second off.
     */
    method Step() returns (timeUp: bool)
      modifies this
      ensures timeUp <==> old(secondsRemaining) <= 0
      ensures secondsRemaining == if timeUp then old(secondsRemaining) else old(secondsRemaining) - 1
      ensures secondsRemaining >= 0 <== old(secondsRemaining) >= 0
      ensures old(IsLow()) ==> IsLow()
    {
      if secondsRemaining <= 0 {
        timeUp := true;
      } else {
        timeUp := false;
        secondsRemaining := secondsRemaining - 1;
      }
    }
  }

  /** `padStart(2, '0')` */
  function Pad2(s: string): (r: string)
    ensures |r| == if |s| >= 2 then |s| else 2
    ensures r[|r| - |s|..] == s
    ensures forall k :: 0 <= k < |r| - |s| ==> r[k] == '0'
  {
    if |s| >= 2 then s else seq(2 - |s|, _ => '0') + s
  }

  /** Whole hours, minutes past the hour and seconds past the minute. */
  function Hours(seconds: nat): nat { seconds / 3600 }
  function Minutes(seconds: nat): nat { (seconds % 3600) / 60 }
  function Seconds(seconds: nat): nat { seconds % 60 }

  lemma ClockDecomposition(seconds: nat)
    ensures Hours(seconds) * 3600 + Minutes(seconds) * 60 + Seconds(seconds) == seconds
    ensures Minutes(seconds) < 60 && Seconds(seconds) < 60
  {
  }

  /** "HH:MM:SS" from the three fields, each padded to two digits. */
  function Clock(h: nat, m: nat, s: nat): (r: string)
    ensures |r| >= 8
  {
    Pad2(NatToString(h)) + ":" + Pad2(NatToString(m)) + ":" + Pad2(NatToString(s))
  }

  /** `formatTime`, for the non-negative values the countdown takes. */
  function FormatTime(seconds: nat): (r: string)
    ensures |r| >= 8
  {
    Clock(Hours(seconds), Minutes(seconds), Seconds(seconds))
  }

  /** Reads an "H..H:MM:SS" display back as a number of seconds. */
  function ParseTime(t: string): int
    requires |t| >= 8
  {
    ParseNat(t[..|t| - 6]) * 3600 + ParseNat(t[|t| - 5..|t| - 3]) * 60 + ParseNat(t[|t| - 2..])
  }

  lemma {:induction false} ParseNatLeadingZero(s: string)
    ensures ParseNat(['0'] + s) == ParseNat(s)
  {
    if s != [] {
      assert (['0'] + s)[..|s|] == ['0'] + s[..|s| - 1];
      ParseNatLeadingZero(s[..|s| - 1]);
    } else {
      assert (['0'] + s)[..0] == [];
    }
  }

  lemma ParsePadded(n: nat)
    ensures ParseNat(Pad2(NatToString(n))) == n
  {
    var s := NatToString(n);
    ParseNatToString(n);
    if |s| < 2 {
      assert Pad2(s) == ['0'] + s;
      ParseNatLeadingZero(s);
    }
  }

  /** A number below 100 takes exactly two characters once padded. */
  lemma TwoCharacters(n: nat)
    requires n < 100
    ensures |Pad2(NatToString(n))| == 2
  {
    if n >= 10 {
      assert NatToString(n) == NatToString(n / 10) + [DigitChar(n % 10)];
    }
  }

  lemma {:induction false} Fields(h: string, m: string, s: string)
    requires |m| == 2 && |s| == 2
    ensures var t := h + ":" + m + ":" + s;
            && |t| == |h| + 6 && t[|t| - 3] == ':' && t[|t| - 6] == ':'
            && t[..|t| - 6] == h && t[|t| - 5..|t| - 3] == m && t[|t| - 2..] == s
  {
  }

  /**
   * With minutes and seconds below 60 the display is "H..H:MM:SS" (colons third and
   * sixth from the end) and reads back as the number of seconds it shows.
   */
  lemma ClockRoundTrip(h: nat, m: nat, s: nat)
    requires m < 60 && s < 60
    ensures var t := Clock(h, m, s);
            && t[|t| - 3] == ':' && t[|t| - 6] == ':'
            && ParseTime(t) == h * 3600 + m * 60 + s
  {
    TwoCharacters(m);
    TwoCharacters(s);
    Fields(Pad2(NatToString(h)), Pad2(NatToString(m)), Pad2(NatToString(s)));
    ParsePadded(h);
    ParsePadded(m);
    ParsePadded(s);
  }

  /** The display loses nothing: reading it back gives the remaining seconds. */
  lemma FormatTimeRoundTrip(seconds: nat)
    ensures ParseTime(FormatTime(seconds)) == seconds
  {
    var h, m, s := Hours(seconds), Minutes(seconds), Seconds(seconds);
    assert h * 3600 + m * 60 + s == seconds && m < 60 && s < 60 by {
      ClockDecomposition(seconds);
    }
    ClockRoundTrip(h, m, s);
  }

  /** 7800 seconds read "02:10:00". */
  lemma DisplayOf7800()
    ensures FormatTime(7800) == "02:10:00"
  {
    var h, m, s := Hours(7800), Minutes(7800), Seconds(7800);
    assert h == 2 && m == 10 && s == 0;
    var hh, mm, ss := NatToString(2), NatToString(10), NatToString(0);
    assert hh == "2" && ss == "0";
    assert mm == "10" by {
      assert mm == NatToString(1) + [DigitChar(0)];
    }
    assert FormatTime(7800) == Pad2(hh) + ":" + Pad2(mm) + ":" + Pad2(ss);
  }
}
