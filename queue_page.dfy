/**
 * The search screen of `queue.js`: a seconds counter shown as `mm:ss`, and a
 * rough wait estimate that grows with the time already spent searching.
 */
module QueuePage {
  import opened Decimal

  /** `formatTime(sec)`: whole minutes, a colon, the remaining seconds. */
  function FormatTime(sec: nat): (r: string)
    ensures |r| >= 5 && r[|r| - 3] == ':'
  {
    TwoDigits(sec / 60) + ":" + TwoDigits(sec % 60)
  }

  /** The display's minutes and seconds fields. */
  lemma FormatTimeFields(sec: nat)
    ensures var r := FormatTime(sec);
      r[..|r| - 3] == TwoDigits(sec / 60) && r[|r| - 2..] == TwoDigits(sec % 60)
  {
    var secs := sec % 60;
    assert secs < 100;
    SplitAtColon(TwoDigits(sec / 60), TwoDigits(secs));
  }

  /** A text joined around a colon from a two-character tail splits back into its parts. */
  lemma SplitAtColon(m: string, s: string)
    requires |s| == 2
    ensures var r := m + ":" + s;
      r[..|r| - 3] == m && r[|r| - 2..] == s
  {
  }

  /**
   * `r` reads back as `sec` seconds: the minutes before the colon and the two
   * seconds digits after it, the seconds field below 60.
   */
  predicate ReadsAsSeconds(r: string, sec: nat) {
    && |r| >= 3
    && AllDigits(r[..|r| - 3]) && AllDigits(r[|r| - 2..])
    && ParseDecimal(r[|r| - 2..]) < 60
    && ParseDecimal(r[..|r| - 3]) * 60 + ParseDecimal(r[|r| - 2..]) == sec
  }

  /** Read back, the two fields of the display give `sec` again. */
  lemma FormatTimeRoundTrip(sec: nat)
    ensures ReadsAsSeconds(FormatTime(sec), sec)
  {
    var mins, secs := sec / 60, sec % 60;
    DisplayReadsBack(mins, secs);
    assert FormatTime(sec) == TwoDigits(mins) + ":" + TwoDigits(secs);
    assert mins * 60 + secs == sec;
  }

  /** Any minutes field and a seconds field below 60, joined by a colon, read back. */
  lemma DisplayReadsBack(mins: nat, secs: nat)
    requires secs < 60
    ensures ReadsAsSeconds(TwoDigits(mins) + ":" + TwoDigits(secs), mins * 60 + secs)
  {
    TwoDigitsParse(mins);
    TwoDigitsParse(secs);
    SplitAtColon(TwoDigits(mins), TwoDigits(secs));
  }

  /** The display is exactly `mm:ss` until 100 minutes; then the minutes field widens. */
  lemma FormatTimeWidth(sec: nat)
    ensures sec < 6000 <==> |FormatTime(sec)| == 5
  {
  }

  /** The display `startSearching` writes is the formatted zero. */
  lemma FormatTimeZero()
    ensures FormatTime(0) == "00:00"
  {
    TwoDigitsParse(0);
    ZeroField(TwoDigits(0));
  }

  /** The only two-digit field worth zero is `"00"`. */
  lemma ZeroField(f: string)
    requires |f| == 2 && AllDigits(f) && ParseDecimal(f) == 0
    ensures f == "00"
  {
    assert f[..1][..0] == [];
  }

  /** The three wait estimates the page can show. */
  datatype Estimate = HalfMinute | OneMinute | TwoMinutes {
    function Text(): string {
      match this
      case HalfMinute => "~30s"
      case OneMinute => "~1m"
      case TwoMinutes => "~2m"
    }

    /** The wait the estimate announces, in seconds. */
    function Seconds(): nat {
      match this
      case HalfMinute => 30
      case OneMinute => 60
      case TwoMinutes => 120
    }
  }

  /**
   * The estimate after `sec` seconds of searching: while under a minute it
   * announces the shortest wait on offer that is longer than the time already
   * spent (at most half a minute more); from a minute on, two minutes.
   */
  function EstimateFor(sec: nat): (e: Estimate)
    ensures sec < 60 ==> sec < e.Seconds() <= sec + 30
    ensures sec >= 60 ==> e == TwoMinutes
  {
    if sec < 30 then HalfMinute else if sec < 60 then OneMinute else TwoMinutes
  }

  /** Under a minute, that description leaves exactly one estimate. */
  lemma EstimateDetermined(sec: nat, e: Estimate)
    requires sec < 60 && sec < e.Seconds() <= sec + 30
    ensures e == EstimateFor(sec)
  {
  }

  /** A longer search never lowers the estimate. */
  lemma EstimateMonotone(s1: nat, s2: nat)
    requires s1 <= s2
    ensures EstimateFor(s1).Seconds() <= EstimateFor(s2).Seconds()
  {
  }

  /** The three estimates read differently, so the text tells the estimate. */
  lemma EstimateTextInjective(e1: Estimate, e2: Estimate)
    requires e1.Text() == e2.Text()
    ensures e1 == e2
  {
    assert e1.Text()[1] == e2.Text()[1];
    assert |e1.Text()| == |e2.Text()|;
  }

  class SearchPage {
    var seconds: nat
    var timerText: string
    var estimateText: string

    /** The timer display always shows the counter. */
    predicate Valid()
      reads this
    {
      timerText == FormatTime(seconds)
    }

    /**
     * The page as loaded: `seconds` starts at 0 and `startSearching` runs.
     * The estimate keeps whatever the markup shows until the first tick.
     */
    constructor(initialEstimate: string)
      ensures Valid() && seconds == 0 && estimateText == initialEstimate
    {
      seconds := 0;
      timerText := FormatTime(0);
      estimateText := initialEstimate;
    }

    /** `updateTimer`: one more second, redisplayed, and the estimate refreshed. */
    method UpdateTimer()
      modifies this
      ensures Valid()
      ensures seconds == old(seconds) + 1
      ensures estimateText == EstimateFor(seconds).Text()
    {
      seconds := seconds + 1;
      estimateText := EstimateFor(seconds).Text();
      timerText := FormatTime(seconds);
    }

    /**
     * `startSearching` (the rejoin button): the counter and its display go
     * back to zero; the estimate is left as it was. The literal `'00:00'` the
     * page writes is the formatted zero (`FormatTimeZero`).
     */
    method StartSearching()
      modifies this
      ensures Valid() && seconds == 0
      ensures estimateText == old(estimateText)
    {
      seconds := 0;
      timerText := FormatTime(0);
    }
  }
}
