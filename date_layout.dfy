/**
 * The text layout `yyyy-MM-dd'T'HH:mm:ssZZZZZ` that the encoder and the decoder share,
 * at the level of its components. The pattern letters are those of Unicode Technical
 * Standard #35 (`yyyy` the year in four digits, `MM` month, `dd` day, `HH` hour 00-23,
 * `mm` minute, `ss` second, `ZZZZZ` the ISO 8601 extended offset `+HH:MM`, written `Z`
 * when the offset is zero); the result is the `date-time` shape of section 5.6 of RFC 3339.
 */
module DateLayout {
  import opened Wrappers
  import opened Digits

  /** A calendar date and wall-clock time with its offset from UTC in minutes. */
  datatype DateTime = DateTime(year: nat, month: nat, day: nat,
                               hour: nat, minute: nat, second: nat,
                               offsetMinutes: int)

  /** The largest offset the layout can write: 23 hours 59 minutes. */
  const MaxOffset: int := 24 * 60 - 1

  predicate IsLeapYear(y: nat) {
    y % 4 == 0 && (y % 100 != 0 || y % 400 == 0)
  }

  function DaysInMonth(y: nat, m: nat): (n: nat)
    requires 1 <= m <= 12
    ensures 28 <= n <= 31
  {
    if m == 2 then (if IsLeapYear(y) then 29 else 28)
    else if m == 4 || m == 6 || m == 9 || m == 11 then 30
    else 31
  }

  predicate Valid(d: DateTime) {
    && 1 <= d.year <= 9999
    && 1 <= d.month <= 12
    && 1 <= d.day <= DaysInMonth(d.year, d.month)
    && d.hour < 24 && d.minute < 60 && d.second < 60
    && -MaxOffset <= d.offsetMinutes <= MaxOffset
  }

  /** The values the layout can write and read back. */
  type Timestamp = d: DateTime | Valid(d) witness DateTime(1970, 1, 1, 0, 0, 0, 0)

  function Abs(x: int): nat {
    if x < 0 then -x else x
  }

  /** `ZZZZZ`: `Z` for UTC, otherwise a sign, two hour digits, a colon and two minute digits. */
  function FormatOffset(offset: int): (s: string)
    requires -MaxOffset <= offset <= MaxOffset
    ensures offset == 0 <==> s == "Z"
    ensures offset != 0 ==> |s| == 6 && s[3] == ':' && (s[0] == '-' <==> offset < 0)
  {
    if offset == 0 then "Z"
    else [if offset < 0 then '-' else '+'] + Pad(Abs(offset) / 60, 2) + ":" + Pad(Abs(offset) % 60, 2)
  }

  function ParseOffset(s: string): (r: Option<int>)
    ensures r.Some? ==> -MaxOffset <= r.value <= MaxOffset
    ensures r.Some? ==> s == "Z" || (&& |s| == 6 && (s[0] == '+' || s[0] == '-') && s[3] == ':'
                                     && AllDigits(s[1..3]) && AllDigits(s[4..6]))
  {
    if s == "Z" then Some(0)
    else if |s| == 6 && (s[0] == '+' || s[0] == '-') && s[3] == ':' then
      var h :- ReadDigits(s[1..3]);
      var m :- ReadDigits(s[4..6]);
      if h < 24 && m < 60 then Some(if s[0] == '-' then -(h * 60 + m) else h * 60 + m)
      else None
    else None
  }

  function Format(d: Timestamp): (s: string)
    ensures |s| == if d.offsetMinutes == 0 then 20 else 25
    ensures s[4] == '-' && s[7] == '-' && s[10] == 'T' && s[13] == ':' && s[16] == ':'
    ensures d.offsetMinutes == 0 <==> s[19] == 'Z'
  {
    Pad(d.year, 4) + "-" + Pad(d.month, 2) + "-" + Pad(d.day, 2) + "T"
    + Pad(d.hour, 2) + ":" + Pad(d.minute, 2) + ":" + Pad(d.second, 2)
    + FormatOffset(d.offsetMinutes)
  }

  /** Reads the layout; any other text, or a component out of range, is rejected. */
  function Parse(s: string): (r: Option<Timestamp>)
    ensures r.Some? ==> (|s| == 20 && s[19] == 'Z') || (|s| == 25 && s[22] == ':')
  {
    if |s| < 20 || s[4] != '-' || s[7] != '-' || s[10] != 'T' || s[13] != ':' || s[16] != ':' then None
    else
      var year :- ReadDigits(s[0..4]);
      var month :- ReadDigits(s[5..7]);
      var day :- ReadDigits(s[8..10]);
      var hour :- ReadDigits(s[11..13]);
      var minute :- ReadDigits(s[14..16]);
      var second :- ReadDigits(s[17..19]);
      var offset :- ParseOffset(s[19..]);
      var d := DateTime(year, month, day, hour, minute, second, offset);
      if Valid(d) then Some(d) else None
  }

  lemma OffsetRoundTrip(offset: int)
    requires -MaxOffset <= offset <= MaxOffset
    ensures ParseOffset(FormatOffset(offset)) == Some(offset)
  {
    if offset != 0 {
      var s := FormatOffset(offset);
      var a := Abs(offset);
      assert s[1..3] == Pad(a / 60, 2);
      assert s[4..6] == Pad(a % 60, 2);
      ReadPad(a / 60, 2);
      ReadPad(a % 60, 2);
    }
  }

  /** Every timestamp the encoder writes, the decoder reads back unchanged. */
  lemma ParseFormat(d: Timestamp)
    ensures Parse(Format(d)) == Some(d)
  {
    var s := Format(d);
    assert s[0..4] == Pad(d.year, 4);
    assert s[5..7] == Pad(d.month, 2);
    assert s[8..10] == Pad(d.day, 2);
    assert s[11..13] == Pad(d.hour, 2);
    assert s[14..16] == Pad(d.minute, 2);
    assert s[17..19] == Pad(d.second, 2);
    assert s[19..] == FormatOffset(d.offsetMinutes);
    ReadPad(d.year, 4);
    ReadPad(d.month, 2);
    ReadPad(d.day, 2);
    ReadPad(d.hour, 2);
    ReadPad(d.minute, 2);
    ReadPad(d.second, 2);
    OffsetRoundTrip(d.offsetMinutes);
  }

  lemma ParseZeroOffsets()
    ensures ParseOffset("+00:00") == Some(0) && ParseOffset("-00:00") == Some(0)
  {
    assert "+00:00"[1..3] == "00" && "+00:00"[4..6] == "00";
    assert "-00:00"[1..3] == "00" && "-00:00"[4..6] == "00";
    assert ReadDigits("00") == Some(0);
  }

  lemma HoursAndMinutes(h: nat, m: nat)
    requires m < 60
    ensures (h * 60 + m) / 60 == h && (h * 60 + m) % 60 == m
  {
  }

  /** A signed offset text, once read, in terms of its two digit fields. */
  lemma SignedOffsetFields(z: string)
    requires z != "Z" && ParseOffset(z).Some?
    ensures z == [z[0]] + z[1..3] + ":" + z[4..6]
    ensures Pad(ReadDigits(z[1..3]).value, 2) == z[1..3] && Pad(ReadDigits(z[4..6]).value, 2) == z[4..6]
    ensures var h, m := ReadDigits(z[1..3]).value, ReadDigits(z[4..6]).value;
      m < 60 && Abs(ParseOffset(z).value) == h * 60 + m && (z[0] == '-' || z[0] == '+')
      && (ParseOffset(z).value < 0 <==> z[0] == '-' && h * 60 + m != 0)
  {
    PadRead(z[1..3]);
    PadRead(z[4..6]);
  }

  /** An offset text is written back as read unless it spells UTC as `+00:00` or `-00:00`. */
  lemma OffsetCanonical(z: string)
    requires ParseOffset(z).Some?
    ensures FormatOffset(ParseOffset(z).value) == z <==> z != "+00:00" && z != "-00:00"
  {
    var o := ParseOffset(z).value;
    ParseZeroOffsets();
    if z != "Z" {
      SignedOffsetFields(z);
      var h, m := ReadDigits(z[1..3]).value, ReadDigits(z[4..6]).value;
      if o != 0 {
        HoursAndMinutes(h, m);
        assert FormatOffset(o) == [z[0]] + Pad(h, 2) + ":" + Pad(m, 2);
      } else {
        assert h == 0 && m == 0;
        PadTwo(0);
        assert z == [z[0]] + "00" + ":" + "00";
      }
    }
  }

  /**
   * A text the decoder accepts is exactly what the encoder writes for the decoded value,
   * except that a zero offset is always written `Z`.
   */
  lemma FormatParse(s: string)
    requires Parse(s).Some?
    ensures Format(Parse(s).value) == s <==> s[19..] != "+00:00" && s[19..] != "-00:00"
  {
    var d := Parse(s).value;
    PadRead(s[0..4]);
    PadRead(s[5..7]);
    PadRead(s[8..10]);
    PadRead(s[11..13]);
    PadRead(s[14..16]);
    PadRead(s[17..19]);
    OffsetCanonical(s[19..]);
    assert s == s[0..4] + "-" + s[5..7] + "-" + s[8..10] + "T" + s[11..13] + ":" + s[14..16] + ":" + s[17..19] + s[19..];
    var f := Format(d);
    assert f[19..] == FormatOffset(d.offsetMinutes);
    assert f[..19] == s[..19];
  }

  /** A two-digit field spelled out digit by digit. */
  lemma PadTwo(n: nat)
    requires n < 100
    ensures Pad(n, 2) == [DigitChar(n / 10), DigitChar(n % 10)]
  {
    assert Pad(n / 10, 1) == Pad(n / 100, 0) + [DigitChar(n / 10 % 10)];
  }

  lemma PadExamples()
    ensures Pad(2020, 4) == "2020"
    ensures Pad(0, 2) == "00" && Pad(1, 2) == "01" && Pad(4, 2) == "04"
    ensures Pad(9, 2) == "09" && Pad(12, 2) == "12"
  {
    PadTwo(0);
    PadTwo(1);
    PadTwo(4);
    PadTwo(9);
    PadTwo(12);
    PadTwo(20);
    assert Pad(2020, 4) == Pad(20, 2) + [DigitChar(2)] + [DigitChar(0)];
  }

  lemma DocumentedOffset()
    ensures FormatOffset(9 * 60) == "+09:00"
  {
    PadExamples();
  }

  lemma DocumentedPieces()
    ensures Format(DateTime(2020, 4, 1, 12, 0, 0, 9 * 60))
         == "2020" + "-" + "04" + "-" + "01" + "T" + "12" + ":" + "00" + ":" + "00" + "+09:00"
  {
    PadExamples();
    DocumentedOffset();
  }

  /**
   * The example of the API documentation: noon on 1 April 2020 at UTC+09:00. The fields
   * and the join of the literal pieces are proved apart, away from `Format`'s unfolding.
   */
  lemma FormatDocumentedExample()
    ensures Format(DateTime(2020, 4, 1, 12, 0, 0, 9 * 60)) == "2020-04-01T12:00:00+09:00"
  {
    DocumentedPieces();
    DocumentedJoin();
  }

  lemma DocumentedJoin()
    ensures "2020" + "-" + "04" + "-" + "01" + "T" + "12" + ":" + "00" + ":" + "00" + "+09:00"
         == "2020-04-01T12:00:00+09:00"
  {
    assert "2020" + "-" + "04" + "-" + "01" + "T" == "2020-04-01T";
    assert "12" + ":" + "00" + ":" + "00" == "12:00:00";
  }

  lemma ParseDocumentedExample()
    ensures Parse("2020-04-01T12:00:00+09:00") == Some(DateTime(2020, 4, 1, 12, 0, 0, 9 * 60))
  {
    FormatDocumentedExample();
    ParseFormat(DateTime(2020, 4, 1, 12, 0, 0, 9 * 60));
  }
}
