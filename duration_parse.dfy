/** A parser for the text `formatDuration` (src/components/TimeTracker.tsx)
    produces, used to state that the text determines the count. */
module DurationParse {
  import opened Optional
  import opened Decimal

  /** Reads the text "<m> min <s> sec" back into the count m * 60 + s; None
      for any text not of that form. */
  function ParseDuration(text: string): (r: Option<nat>) {
    match ReadNumber(text)
    case None => None
    case Some((mins, rest)) =>
      if |rest| < 5 || rest[..5] != " min " then None
      else
        match ReadNumber(rest[5..])
        case None => None
        case Some((secs, tail)) => if tail != " sec" then None else Some(mins * 60 + secs)
  }

  /** A text whose leading number is followed by " min " and a second number
      followed by exactly " sec" parses to the count those numbers give. */
  lemma ParseDurationWhen(text: string, mins: nat, tail: string, secs: nat)
    requires ReadNumber(text) == Some((mins, " min " + tail))
    requires ReadNumber(tail) == Some((secs, " sec"))
    ensures ParseDuration(text) == Some(mins * 60 + secs)
  {
    SplitAfter(" min ", tail);
  }

  /** The minutes are read off the front, up to the " min " separator. */
  lemma ReadMinutes(m: string, tail: string)
    requires |m| >= 1 && AllDigits(m)
    ensures ReadNumber(m + (" min " + tail)) == Some((DecimalValue(m), " min " + tail))
  {
    assert (" min " + tail)[0] == ' ';
    ReadNumberOf(m, " min " + tail);
  }

  /** The seconds are read, leaving exactly " sec". */
  lemma ReadSeconds(s: string)
    requires |s| >= 1 && AllDigits(s)
    ensures ReadNumber(s + " sec") == Some((DecimalValue(s), " sec"))
  {
    ReadNumberOf(s, " sec");
  }

  /** Parsing "<m> min <s> sec", for any two non-empty runs of digits worth
      `mins` and `secs`, gives back mins * 60 + secs. */
  lemma ParseDurationOfDigits(text: string, m: string, s: string, mins: nat, secs: nat)
    requires |m| >= 1 && AllDigits(m) && DecimalValue(m) == mins
    requires |s| >= 1 && AllDigits(s) && DecimalValue(s) == secs
    requires text == m + (" min " + (s + " sec"))
    ensures ParseDuration(text) == Some(mins * 60 + secs)
  {
    ReadMinutes(m, s + " sec");
    ReadSeconds(s);
    ParseDurationWhen(text, mins, s + " sec", secs);
  }

  /** Parsing "<m> min <s> sec", rendered from any two counts, gives back
      m * 60 + s. */
  lemma ParseRendered(mins: nat, secs: nat)
    ensures ParseDuration(NatToString(mins) + " min " + NatToString(secs) + " sec") == Some(mins * 60 + secs)
  {
    var m, s := NatToString(mins), NatToString(secs);
    Regroup(m, " min ", s, " sec");
    DecimalRoundTrip(mins);
    DecimalRoundTrip(secs);
    ParseDurationOfDigits(m + " min " + s + " sec", m, s, mins, secs);
  }
}
