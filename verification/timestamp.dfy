/**
  The `[MM:SS]` label put in front of each transcript line: minutes and
  seconds of the segment's start offset, each rendered with `02d`. There is
  no hours field, so from 100 minutes on the minutes field grows wider.
 */
module Timestamp {
  import opened Wrappers
  import opened Decimal

  /** The minutes field of a label: everything between '[' and ':'. */
  function MinutesField(t: string): string
    requires |t| >= 7
  {
    t[1..|t| - 4]
  }

  /** The seconds field of a label: the two characters between ':' and ']'. */
  function SecondsField(t: string): string
    requires |t| >= 7
  {
    t[|t| - 3..|t| - 1]
  }

  /** `f"[{minutes:02d}:{seconds:02d}]"` for a start offset of `start` whole seconds. */
  function FormatTimestamp(start: nat): (t: string)
    ensures |t| >= 7 && t[0] == '[' && t[|t| - 4] == ':' && t[|t| - 1] == ']'
    ensures AllDigits(MinutesField(t)) && AllDigits(SecondsField(t))
    ensures ValueOf(SecondsField(t)) == start % 60 < 60
    ensures ValueOf(MinutesField(t)) == start / 60
    ensures |MinutesField(t)| == 2 || MinutesField(t)[0] != '0'
    ensures |t| == 7 <==> start < 6000
  {
    var m := Pad2(start / 60);
    var s := Pad2(start % 60);
    var t := "[" + m + ":" + s + "]";
    assert MinutesField(t) == m;
    assert SecondsField(t) == s;
    t
  }

  /**
    Reads a label back: '[' , at least two digits, ':', exactly two digits
    denoting less than 60, ']'. Returns the offset in whole start.
   */
  function ParseTimestamp(t: string): (r: Option<nat>)
    ensures r.Some? ==> |t| >= 7 && t[0] == '[' && t[|t| - 4] == ':' && t[|t| - 1] == ']'
  {
    if |t| >= 7 && t[0] == '[' && t[|t| - 4] == ':' && t[|t| - 1] == ']'
       && AllDigits(MinutesField(t)) && AllDigits(SecondsField(t))
       && ValueOf(SecondsField(t)) < 60
    then Some(ValueOf(MinutesField(t)) * 60 + ValueOf(SecondsField(t)))
    else None
  }

  /** Every label reads back as the offset it was made from. */
  lemma TimestampRoundTrip(start: nat)
    ensures ParseTimestamp(FormatTimestamp(start)) == Some(start)
  {
  }

  /** Distinct whole-second offsets get distinct labels. */
  lemma TimestampInjective(a: nat, b: nat)
    requires FormatTimestamp(a) == FormatTimestamp(b)
    ensures a == b
  {
    TimestampRoundTrip(a);
    TimestampRoundTrip(b);
  }

  /** A label holds no ']' before its last character, and no space or newline. */
  lemma TimestampCharacters(start: nat)
    ensures forall j :: 0 <= j < |FormatTimestamp(start)| - 1 ==> FormatTimestamp(start)[j] != ']'
    ensures ' ' !in FormatTimestamp(start) && '\n' !in FormatTimestamp(start)
  {
    var t := FormatTimestamp(start);
    forall j | 0 <= j < |t| ensures t[j] != ' ' && t[j] != '\n' && (j < |t| - 1 ==> t[j] != ']') {
      if 1 <= j < |t| - 4 {
        assert t[j] == MinutesField(t)[j - 1];
      } else if |t| - 3 <= j < |t| - 1 {
        assert t[j] == SecondsField(t)[j - (|t| - 3)];
      }
    }
  }

  /** Below 100 minutes the label has the fixed shape [MM:SS], two digits each. */
  lemma FixedWidthLabel(start: nat)
    requires start < 6000
    ensures FormatTimestamp(start) ==
              ['[', DigitChar(start / 60 / 10), DigitChar(start / 60 % 10), ':',
               DigitChar(start % 60 / 10), DigitChar(start % 60 % 10), ']']
  {
    Pad2TwoDigits(start / 60);
    Pad2TwoDigits(start % 60);
  }

  /** From 100 to 999 minutes the minutes field has three digits: [MMM:SS]. */
  lemma ThreeDigitMinutesLabel(start: nat)
    requires 6000 <= start < 60000
    ensures FormatTimestamp(start) ==
              ['[', DigitChar(start / 60 / 100), DigitChar(start / 60 / 10 % 10), DigitChar(start / 60 % 10), ':',
               DigitChar(start % 60 / 10), DigitChar(start % 60 % 10), ']']
  {
    Pad2ThreeDigits(start / 60);
    Pad2TwoDigits(start % 60);
  }

  /** The offsets 0, 61, 65 and 125 seconds are labelled [00:00], [01:01], [01:05] and [02:05]. */
  lemma TimestampExamples()
    ensures FormatTimestamp(0) == "[00:00]"
    ensures FormatTimestamp(61) == "[01:01]"
    ensures FormatTimestamp(65) == "[01:05]"
    ensures FormatTimestamp(125) == "[02:05]"
  {
    FixedWidthLabel(0);
    FixedWidthLabel(61);
    FixedWidthLabel(65);
    FixedWidthLabel(125);
  }

  /**
    There is no hours field: one hour is sixty minutes, [60:00], and at 100
    minutes the minutes field grows to three digits, [100:00].
   */
  lemma NoHoursField()
    ensures FormatTimestamp(3600) == "[60:00]"
    ensures FormatTimestamp(6000) == "[100:00]"
  {
    FixedWidthLabel(3600);
    ThreeDigitMinutesLabel(6000);
  }

  /**
    Python's `int(start // 60)` for a float start offset: the floor of the
    quotient, converted to an integer.
   */
  function FloatMinutes(start: real): int {
    (start / 60.0).Floor
  }

  /**
    Python's `int(start % 60)`: the float remainder takes the sign of the
    divisor, and `int` then truncates toward zero.
   */
  function FloatSeconds(start: real): int {
    var rem := start - 60.0 * ((start / 60.0).Floor as real);
    if rem >= 0.0 then rem.Floor else -((-rem).Floor)
  }

  /**
    For a non-negative offset, the fields Python computes from the float equal
    the fields of its whole seconds, so the label depends only on `floor(start)`.
   */
  lemma {:induction false} WholeSecondsSuffice(start: real)
    requires start >= 0.0
    ensures FloatMinutes(start) == start.Floor / 60
    ensures FloatSeconds(start) == start.Floor % 60
  {
    var n := start.Floor;
    var q := n / 60;
    var r := n % 60;
    assert n == 60 * q + r && 0 <= r < 60;
    assert (60 * q) as real <= start < (60 * q + 60) as real;
    assert q as real <= start / 60.0 < (q + 1) as real;
    assert FloatMinutes(start) == q;
    var rem := start - 60.0 * (q as real);
    assert r as real <= rem < (r + 1) as real;
    assert rem.Floor == r;
  }
}
