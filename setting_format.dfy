/**
  The labels of the settings panel (src/components/Setting/index.tsx): a
  duration in seconds as minutes and seconds, and the other settings as a
  number followed by its unit.
 */
module SettingFormat {
  import opened Wrappers
  import opened Decimal

  /** `Math.floor(val / 60)`. */
  function Minutes(val: int): (m: int)
    ensures 60 * m <= val < 60 * m + 60
  {
    val / 60
  }

  /** `val - minutes * 60`. */
  function Seconds(val: int): (s: int)
    ensures 0 <= s < 60 && 60 * Minutes(val) + s == val
  {
    val - Minutes(val) * 60
  }

  /** `formatDuration`: "<m> Minutes " when there are whole minutes, then "<s> Seconds" when seconds remain. */
  function FormatDuration(val: int): string
  {
    var minutes := Minutes(val);
    var seconds := Seconds(val);
    var literalM := if minutes > 0 then IntString(minutes) + " Minutes " else "";
    var literalS := if seconds > 0 then IntString(seconds) + " Seconds" else "";
    literalM + literalS
  }

  function FormatPacketSize(val: int): string { IntString(val) + " Bytes" }

  function FormatFrequency(val: int): string { IntString(val) + " Hz" }

  function FormatDelay(val: int): string { IntString(val) + " ms" }

  /**
    Reads a duration label back: its space-separated words are a minute part,
    a second part, both, or nothing.
   */
  function ReadDuration(text: string): Option<int>
  {
    ReadDurationWords(Split(text, ' '))
  }

  function ReadDurationWords(words: seq<string>): Option<int>
  {
    if |words| == 4 && IsDigits(words[0]) && words[1] == "Minutes" && IsDigits(words[2]) && words[3] == "Seconds" then
      Some(DigitsValue(words[0]) * 60 + DigitsValue(words[2]))
    else if |words| == 3 && IsDigits(words[0]) && words[1] == "Minutes" && words[2] == "" then
      Some(DigitsValue(words[0]) * 60)
    else if |words| == 2 && IsDigits(words[0]) && words[1] == "Seconds" then
      Some(DigitsValue(words[0]))
    else if words == [""] then
      Some(0)
    else None
  }

  lemma DigitsHaveNoSpace(s: string)
    requires IsDigits(s)
    ensures ' ' !in s
  {
    forall i | 0 <= i < |s| ensures s[i] != ' ' {
      assert IsDigit(s[i]);
    }
  }

  lemma SplitWords(a: string, b: string, c: string, d: string)
    requires ' ' !in a && ' ' !in b && ' ' !in c && ' ' !in d
    ensures Split(c + [' '] + d, ' ') == [c, d]
    ensures Split(b + [' '] + (c + [' '] + d), ' ') == [b, c, d]
    ensures Split(a + [' '] + (b + [' '] + (c + [' '] + d)), ' ') == [a, b, c, d]
  {
    SplitNoSeparator(d, ' ');
    SplitPrefix(c, d, ' ');
    SplitPrefix(b, c + [' '] + d, ' ');
    SplitPrefix(a, b + [' '] + (c + [' '] + d), ' ');
  }

  lemma ReadBothParts(mt: string, st: string)
    requires IsDigits(mt) && IsDigits(st)
    ensures ReadDuration((mt + " Minutes ") + (st + " Seconds")) == Some(DigitsValue(mt) * 60 + DigitsValue(st))
  {
    DigitsHaveNoSpace(mt);
    DigitsHaveNoSpace(st);
    assert (mt + " Minutes ") + (st + " Seconds") == mt + [' '] + ("Minutes" + [' '] + (st + [' '] + "Seconds"));
    SplitWords(mt, "Minutes", st, "Seconds");
    ReadFourWords(mt, st);
  }

  lemma ReadFourWords(mt: string, st: string)
    requires IsDigits(mt) && IsDigits(st)
    ensures ReadDurationWords([mt, "Minutes", st, "Seconds"]) == Some(DigitsValue(mt) * 60 + DigitsValue(st))
  {
  }

  lemma ReadMinutePart(mt: string)
    requires IsDigits(mt)
    ensures ReadDuration(mt + " Minutes ") == Some(DigitsValue(mt) * 60)
  {
    DigitsHaveNoSpace(mt);
    assert mt + " Minutes " == mt + [' '] + ("Minutes" + [' '] + "");
    SplitWords("", mt, "Minutes", "");
    assert ReadDurationWords([mt, "Minutes", ""]) == Some(DigitsValue(mt) * 60);
  }

  lemma ReadSecondPart(st: string)
    requires IsDigits(st)
    ensures ReadDuration(st + " Seconds") == Some(DigitsValue(st))
  {
    DigitsHaveNoSpace(st);
    assert st + " Seconds" == st + [' '] + "Seconds";
    SplitWords("", "", st, "Seconds");
    assert ReadDurationWords([st, "Seconds"]) == Some(DigitsValue(st));
  }

  /** For a non-negative duration the label loses nothing: it reads back as the same number of seconds. */
  lemma DurationRoundTrip(val: int)
    requires val >= 0
    ensures ReadDuration(FormatDuration(val)) == Some(val)
  {
    var m, s := Minutes(val), Seconds(val);
    if m > 0 && s > 0 {
      RoundTripBoth(val, m, s);
    } else if m > 0 {
      RoundTripMinutes(val, m);
    } else if s > 0 {
      RoundTripSeconds(val, s);
    } else {
      RoundTripZero(val);
    }
  }

  lemma RoundTripZero(val: int)
    requires Minutes(val) == 0 && Seconds(val) == 0
    ensures ReadDuration(FormatDuration(val)) == Some(val)
  {
    assert FormatDuration(val) == "";
    SplitNoSeparator("", ' ');
  }

  lemma RoundTripBoth(val: int, m: nat, s: nat)
    requires m == Minutes(val) && s == Seconds(val) && m > 0 && s > 0
    ensures ReadDuration(FormatDuration(val)) == Some(val)
  {
    var mt, st := NatString(m), NatString(s);
    assert FormatDuration(val) == (mt + " Minutes ") + (st + " Seconds");
    ReadBothParts(mt, st);
    NatStringRoundTrip(m);
    NatStringRoundTrip(s);
    assert m * 60 + s == val;
  }

  lemma RoundTripMinutes(val: int, m: nat)
    requires m == Minutes(val) && m > 0 && Seconds(val) == 0
    ensures ReadDuration(FormatDuration(val)) == Some(val)
  {
    var mt := NatString(m);
    assert FormatDuration(val) == mt + " Minutes ";
    ReadMinutePart(mt);
    NatStringRoundTrip(m);
    assert m * 60 == val;
  }

  lemma RoundTripSeconds(val: int, s: nat)
    requires Minutes(val) == 0 && s == Seconds(val) && s > 0
    ensures ReadDuration(FormatDuration(val)) == Some(val)
  {
    var st := NatString(s);
    assert FormatDuration(val) == st + " Seconds";
    ReadSecondPart(st);
    NatStringRoundTrip(s);
  }

  /** The shapes of a label: empty for 0, only the minute part (with its trailing space) for whole minutes, only seconds below a minute. */
  lemma DurationShapes(val: int)
    ensures val == 0 ==> FormatDuration(val) == ""
    ensures val > 0 && val % 60 == 0 ==> FormatDuration(val) == NatString(val / 60) + " Minutes "
    ensures 0 < val < 60 ==> FormatDuration(val) == NatString(val) + " Seconds"
    ensures val < 0 && val % 60 != 0 ==> FormatDuration(val) == NatString(val % 60) + " Seconds"
  {
  }

  /** Each unit label is the decimal value, one space and the unit; the digits read back as the value. */
  lemma UnitLabels(val: nat)
    ensures FormatPacketSize(val) == NatString(val) + " Bytes"
    ensures FormatFrequency(val) == NatString(val) + " Hz"
    ensures FormatDelay(val) == NatString(val) + " ms"
    ensures var s := FormatPacketSize(val); DigitsValue(s[..|s| - 6]) == val
    ensures var s := FormatFrequency(val); DigitsValue(s[..|s| - 3]) == val
    ensures var s := FormatDelay(val); DigitsValue(s[..|s| - 3]) == val
  {
    var d := NatString(val);
    NatStringRoundTrip(val);
    assert (d + " Bytes")[..|d|] == d;
    assert (d + " Hz")[..|d|] == d;
    assert (d + " ms")[..|d|] == d;
  }
}
