/** The values a dataset holds: one cell per column of a record, as pandas
    hands them to the suppliers (`to_dict(orient='records')`). */
module Values {
  import opened Text

  type Column = string

  /** A calendar date and time of day, down to the nanosecond, as a pandas
      `Timestamp` carries it. */
  datatype DateTime = DateTime(year: int, month: int, day: int,
                               hour: int, minute: int, second: int, nanosecond: int)

  /** The timestamps the model covers: the years Python 2's `strftime`
      accepts (1900 on) up to the last year pandas can represent. */
  predicate InRange(t: DateTime) {
    && 1900 <= t.year <= 2262
    && 1 <= t.month <= 12
    && 1 <= t.day <= 31
    && 0 <= t.hour < 24
    && 0 <= t.minute < 60
    && 0 <= t.second < 60
    && 0 <= t.nanosecond < 1000000000
  }

  type Stamp = t: DateTime | InRange(t) witness DateTime(1970, 1, 1, 0, 0, 0, 0)

  /** The kinds of cell value. `Float` carries the text Python's `str()`
      gives for the float (its binary arithmetic is not modelled);
      `Decimal` carries the text an exact decimal was built from. */
  datatype Value =
    | Int(n: int)
    | Float(text: string)
    | Decimal(text: string)
    | Str(s: string)
    | Timestamp(t: Stamp)
    | Null

  /** One row of a dataset: column name to value. */
  type Record = map<Column, Value>

  /** The `YYYY-MM-DD HH:MM:SS` text of a timestamp, zero-padded. */
  function FormatTimestamp(t: Stamp): (s: string)
    ensures |s| == 19
  {
    Pad(t.year, 4) + "-" + Pad(t.month, 2) + "-" + Pad(t.day, 2) + " "
      + Pad(t.hour, 2) + ":" + Pad(t.minute, 2) + ":" + Pad(t.second, 2)
  }

  /** Reads the fields of a `YYYY-MM-DD HH:MM:SS` string back. */
  function ParseTimestamp(s: string): DateTime
    requires |s| == 19
  {
    DateTime(ParseNat(s[0..4]), ParseNat(s[5..7]), ParseNat(s[8..10]),
             ParseNat(s[11..13]), ParseNat(s[14..16]), ParseNat(s[17..19]), 0)
  }

  /** The timestamp text keeps every field down to the second and drops the
      fraction of a second. */
  lemma TimestampTextRoundTrip(t: Stamp)
    ensures ParseTimestamp(FormatTimestamp(t)) == t.(nanosecond := 0)
  {
    var y, mo, d := Pad(t.year, 4), Pad(t.month, 2), Pad(t.day, 2);
    var h, mi, se := Pad(t.hour, 2), Pad(t.minute, 2), Pad(t.second, 2);
    var s := FormatTimestamp(t);
    assert s == y + "-" + mo + "-" + d + " " + h + ":" + mi + ":" + se;
    assert s[0..4] == y;
    assert s[5..7] == mo;
    assert s[8..10] == d;
    assert s[11..13] == h;
    assert s[14..16] == mi;
    assert s[17..19] == se;
    assert Pow10(2) == 100 && Pow10(4) == 10000;
    ParsePad(t.year, 4);
    ParsePad(t.month, 2);
    ParsePad(t.day, 2);
    ParsePad(t.hour, 2);
    ParsePad(t.minute, 2);
    ParsePad(t.second, 2);
  }
}
