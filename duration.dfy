/** `formatDuration`: a media duration as the `M:SS` clock shown with the video. */
module DurationLabel {
  import opened Wrappers
  import opened Text
  import opened Page

  /**
   * `formatDuration(video.duration)`.  `0` and `NaN` are falsy and give
   * "Unknown".  `+Infinity` passes both tests; `Math.floor(Infinity / 60)`
   * renders as "Infinity" and `Infinity % 60` is `NaN`, so the clock reads
   * "Infinity:NaN".  Otherwise the minutes are `Math.floor(s / 60)` and the
   * seconds `Math.floor(s % 60)`, padded to two digits.
   */
  function FormatDuration(d: Duration): string {
    match d
    case NaN => "Unknown"
    case Infinity => "Infinity:NaN"
    case Seconds(s) =>
      if s == 0.0 then "Unknown" else Clock(Minutes(s), SecondsPart(s))
  }

  /** `Math.floor(s / 60)` */
  function Minutes(s: Secs): nat {
    (s / 60.0).Floor
  }

  /** `Math.floor(s % 60)`; for non-negative `s` the remainder is `s - 60 * Math.floor(s / 60)`. */
  function SecondsPart(s: Secs): (r: nat)
    ensures r < 60
  {
    (s - 60.0 * Minutes(s) as real).Floor
  }

  /** `${mins}:${secs.toString().padStart(2, '0')}` */
  function Clock(mins: nat, secs: nat): string {
    NatToString(mins) + ":" + PadStart2(NatToString(secs))
  }

  /** Reads an `M:SS` clock back into whole seconds; `None` for anything else. */
  function DecodeClock(clock: string): Option<nat> {
    var k := IndexOf(clock, ':');
    if k == |clock| then None
    else
      var mins := ParseNat(clock[..k]);
      var secs := ParseNat(clock[k + 1..]);
      if mins.Some? && secs.Some? && |clock[k + 1..]| == 2 && secs.value < 60 then Some(mins.value * 60 + secs.value)
      else None
  }

  /** Minutes and seconds split the whole seconds of a duration. */
  lemma {:induction false} SplitSeconds(s: Secs)
    ensures Minutes(s) * 60 + SecondsPart(s) == s.Floor
  {
    var m := Minutes(s);
    var rest := s - 60.0 * m as real;
    assert (rest + (60 * m) as real).Floor == rest.Floor + 60 * m;
  }

  /** Locating the separator of `a + ":" + b` when `a` holds no `:`. */
  lemma {:induction false} IndexOfJoin(a: string, b: string)
    requires forall i | 0 <= i < |a| :: a[i] != ':'
    ensures IndexOf(a + ":" + b, ':') == |a|
  {
    var s := a + ":" + b;
    assert s[|a|] == ':';
  }

  /** `DecodeClock` in terms of the separator position and the two numbers around it. */
  lemma DecodeClockParts(clock: string, k: nat, mins: nat, secs: nat)
    requires k < |clock| && IndexOf(clock, ':') == k
    requires ParseNat(clock[..k]) == Some(mins) && ParseNat(clock[k + 1..]) == Some(secs)
    requires |clock[k + 1..]| == 2 && secs < 60
    ensures DecodeClock(clock) == Some(mins * 60 + secs)
  {
  }

  /** Seconds below 60 pad to exactly two digits, which read back as the seconds. */
  lemma PaddedSeconds(secs: nat)
    requires secs < 60
    ensures |PadStart2(NatToString(secs))| == 2
    ensures ParseNat(PadStart2(NatToString(secs))) == Some(secs)
  {
    if secs >= 10 {
      assert NatToString(secs) == NatToString(secs / 10) + [DigitChar(secs % 10)];
    }
    NatToStringValue(secs);
    PadStart2Value(NatToString(secs));
  }

  /** Where the separator of a clock sits, and what lies on either side of it. */
  lemma ClockParts(mins: nat, secs: nat)
    ensures
      var m := NatToString(mins);
      var clock := Clock(mins, secs);
      IndexOf(clock, ':') == |m| < |clock| && clock[..|m|] == m && clock[|m| + 1..] == PadStart2(NatToString(secs))
  {
    var m := NatToString(mins);
    var ss := PadStart2(NatToString(secs));
    IndexOfJoin(m, ss);
    assert (m + ":" + ss)[..|m|] == m;
    assert (m + ":" + ss)[|m| + 1..] == ss;
  }

  /** An `M:SS` clock built from whole minutes and seconds below 60 reads back as their total. */
  lemma DecodeJoin(mins: nat, secs: nat)
    requires secs < 60
    ensures DecodeClock(Clock(mins, secs)) == Some(mins * 60 + secs)
  {
    ClockParts(mins, secs);
    NatToStringRoundTrip(mins);
    PaddedSeconds(secs);
    DecodeClockParts(Clock(mins, secs), |NatToString(mins)|, mins, secs);
  }

  /**
   * The clock of a positive finite duration reads back as its whole number of
   * seconds: `formatDuration(125) == "2:05"` and `2 * 60 + 5 == 125`.
   */
  lemma FormatDurationRoundTrip(s: Secs)
    requires s > 0.0
    ensures DecodeClock(FormatDuration(Seconds(s))) == Some(s.Floor as nat)
  {
    SplitSeconds(s);
    DecodeJoin(Minutes(s), SecondsPart(s));
  }

  /** The clock is "Unknown" exactly for a zero or unknown duration. */
  lemma FormatDurationUnknown(d: Duration)
    ensures FormatDuration(d) == "Unknown" <==> d == NaN || d == Seconds(0.0)
  {
    if d.Seconds? && d.value != 0.0 {
      var m := NatToString(Minutes(d.value));
      var clock := FormatDuration(d);
      assert clock[|m|] == ':';
      assert forall i | 0 <= i < |"Unknown"| :: "Unknown"[i] != ':';
      assert |clock| >= |m| + 3;
      assert clock != "Unknown";
    }
  }

  /** `formatDuration(125)` */
  lemma FormatDurationExample()
    ensures FormatDuration(Seconds(125.0)) == "2:05"
  {
  }
}
