/** `formatDuration` (src/components/TimeTracker.tsx). */
module Duration {
  import opened Optional
  import opened Decimal
  import opened DurationParse

  /** `seconds % 60` as JavaScript computes it: the remainder of truncated
      division, whose sign is that of the dividend (Dafny's `%` never yields a
      negative number). */
  function JsRem60(seconds: int): (r: int)
    ensures -60 < r < 60
    ensures seconds >= 0 ==> r >= 0
    ensures seconds <= 0 ==> r <= 0
    ensures (seconds - r) % 60 == 0
  {
    if seconds >= 0 then seconds % 60 else -((-seconds) % 60)
  }

  /** `formatDuration(seconds)`: `Math.floor(seconds / 60)` minutes and
      `seconds % 60` seconds, as "<m> min <s> sec". For a positive divisor
      Dafny's `/` is floor division, which is what `Math.floor(a / b)` gives. */
  function FormatDuration(seconds: int): (r: string)
    ensures seconds >= 0 ==> ParseDuration(r) == Some(seconds)
    ensures seconds < 0 ==> |r| > 0 && r[0] == '-'
  {
    var text := IntToString(seconds / 60) + " min " + IntToString(JsRem60(seconds)) + " sec";
    assert seconds >= 0 ==> ParseDuration(text) == Some(seconds) by {
      if seconds >= 0 {
        ParseRendered(seconds / 60, seconds % 60);
      }
    }
    text
  }

  /** The minutes and seconds `formatDuration` shows for a non-negative count. */
  function Split(seconds: nat): (r: (nat, nat))
    ensures r.0 * 60 + r.1 == seconds && r.1 < 60
  {
    (seconds / 60, seconds % 60)
  }

  /** Split is the only way to write a count as whole minutes and fewer than
      sixty seconds. */
  lemma SplitUnique(seconds: nat, mins: nat, secs: nat)
    requires mins * 60 + secs == seconds && secs < 60
    ensures Split(seconds) == (mins, secs)
  {
  }

  /** For a non-negative count the text is the minutes of Split, " min ", its
      seconds, " sec": the two numbers recompose to the input. */
  lemma FormatDurationOfNat(seconds: int)
    requires seconds >= 0
    ensures var (mins, secs) := Split(seconds);
      && mins * 60 + secs == seconds && secs < 60
      && FormatDuration(seconds) == NatToString(mins) + " min " + NatToString(secs) + " sec"
  {
  }

  /** 125 seconds show as "2 min 5 sec". */
  lemma FormatDurationExample125()
    ensures FormatDuration(125) == "2 min 5 sec"
  {
    FormatDurationShows(125, "2", "5");
  }

  /** 0 seconds show as "0 min 0 sec". */
  lemma FormatDurationExample0()
    ensures FormatDuration(0) == "0 min 0 sec"
  {
    FormatDurationShows(0, "0", "0");
  }

  /** 59 seconds show as "0 min 59 sec". */
  lemma FormatDurationExample59()
    ensures FormatDuration(59) == "0 min 59 sec"
  {
    assert NatToString(5) == "5";
    assert NatToString(59) == "5" + [DigitChar(9)] == "59";
    FormatDurationShows(59, "0", "59");
  }

  /** One concrete count, given the renderings of its minutes and seconds. */
  lemma FormatDurationShows(seconds: nat, mins: string, secs: string)
    requires NatToString(seconds / 60) == mins && NatToString(seconds % 60) == secs
    ensures FormatDuration(seconds) == mins + " min " + secs + " sec"
  {
    FormatDurationOfNat(seconds);
  }

  /** Distinct non-negative counts are shown as distinct texts. */
  lemma FormatDurationInjective(a: nat, b: nat)
    requires FormatDuration(a) == FormatDuration(b)
    ensures a == b
  {
  }
}
