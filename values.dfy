/** Ruby values that reach the SQL builder, their Ruby `to_s`, and the
    literal quoting rules of the PostgreSQL connection (`connection.quote`,
    `quote_table_name`, `quote_column_name`) as far as the builder relies on them. */
module Values {
  import opened Text

  /** A calendar day (Ruby `Date`). */
  datatype Date = Date(year: int, month: int, day: int)

  /** A UTC timestamp (Ruby `Time`) at microsecond resolution. */
  datatype Time = Time(date: Date, hour: int, minute: int, second: int, usec: int)

  /** A plain Ruby value: anything that is neither an Arel node nor a list. */
  datatype Scalar =
    | Str(s: string)               // String
    | Sym(name: string)            // Symbol
    | Int(i: int)                  // Integer
    | DateValue(date: Date)        // Date
    | TimeValue(time: Time)        // Time
    | Duration(seconds: int)       // ActiveSupport::Duration, e.g. `30.days`
    | Nil                          // nil
    | Bool(b: bool)                // true / false

  /** Why rendering or building failed. */
  datatype Error =
    | UnsupportedVisit(value: Scalar)   // Arel's visitor met a raw value it cannot print
    | TypeError                         // a CROSS JOIN target of unknown shape
    | ArgumentError                     // Range.new refused bounds that do not compare

  datatype Result<+T> = Ok(value: T) | Err(error: Error)

  predicate ValidDate(d: Date)
  {
    1 <= d.month <= 12 && 1 <= d.day <= 31
  }

  predicate ValidTime(t: Time)
  {
    ValidDate(t.date) && 0 <= t.hour < 24 && 0 <= t.minute < 60 && 0 <= t.second < 60 && 0 <= t.usec < 1000000
  }

  /** `%Y`: at least four digits, a leading '-' before the year 1 BC and earlier. */
  function YearText(y: int): string
  {
    if y < 0 then "-" + ZeroPad(NatToString(-y), 4) else ZeroPad(NatToString(y), 4)
  }

  function TwoDigits(n: int): string
  {
    if n < 0 then "-" + NatToString(-n) else ZeroPad(NatToString(n), 2)
  }

  /** `Date#to_s`: YYYY-MM-DD. */
  function DateText(d: Date): string
  {
    YearText(d.year) + "-" + TwoDigits(d.month) + "-" + TwoDigits(d.day)
  }

  /** `Time#to_s(:db)`: YYYY-MM-DD HH:MM:SS. */
  function DbTimeText(t: Time): string
  {
    DateText(t.date) + " " + TwoDigits(t.hour) + ":" + TwoDigits(t.minute) + ":" + TwoDigits(t.second)
  }

  /** The connection's `quoted_date`: the microseconds are appended only when non-zero. */
  function QuotedDateText(t: Time): string
  {
    if t.usec > 0 then DbTimeText(t) + "." + ZeroPad(NatToString(t.usec), 6) else DbTimeText(t)
  }

  /** Ruby's `to_s` of a plain value (what string interpolation and `Array#join` print). */
  function ToS(v: Scalar): string
  {
    match v
    case Str(s) => s
    case Sym(name) => name
    case Int(i) => IntToString(i)
    case DateValue(d) => DateText(d)
    case TimeValue(t) => DbTimeText(t) + " UTC"
    case Duration(n) => IntToString(n)
    case Nil => ""
    case Bool(b) => if b then "true" else "false"
  }

  /** The connection's literal quoting (`connection.quote`): strings and
      symbols single-quoted with `'` doubled, numbers and durations bare,
      dates and times quoted, nil as NULL. */
  function Quote(v: Scalar): (r: string)
    ensures v.Str? ==> r == Enclosed('\'', v.s)
    ensures v.Sym? ==> r == Enclosed('\'', v.name)
    ensures v.Int? ==> r == IntToString(v.i)
    ensures v.DateValue? ==> r == "'" + DateText(v.date) + "'"
    ensures v.Duration? ==> r == IntToString(v.seconds)
    ensures v.Nil? ==> r == "NULL"
  {
    match v
    case Str(s) => Enclosed('\'', s)
    case Sym(name) => Enclosed('\'', name)
    case Int(i) => IntToString(i)
    case DateValue(d) => "'" + DateText(d) + "'"
    case TimeValue(t) => "'" + QuotedDateText(t) + "'"
    case Duration(n) => IntToString(n)
    case Nil => "NULL"
    case Bool(b) => if b then "TRUE" else "FALSE"
  }

  /** `quote_table_name`: the name in double quotes, `"` doubled. */
  function QuoteTableName(name: string): string
  {
    Enclosed('"', name)
  }

  /** `quote_column_name`: the name in double quotes, `"` doubled. */
  function QuoteColumnName(name: string): string
  {
    Enclosed('"', name)
  }

  /** Table and column names are quoted injection-safely as well: a SQL
      lexer reading the quoted identifier gets the name back, whatever it
      holds, and stops exactly at its end. */
  lemma QuotedNameReadsBack(name: string, rest: string)
    requires |rest| == 0 || rest[0] != '"'
    ensures var t := QuoteTableName(name);
            t[0] == '"' && ReadQuotedBody('"', t[1..] + rest) == Some((name, rest))
    ensures var c := QuoteColumnName(name);
            c[0] == '"' && ReadQuotedBody('"', c[1..] + rest) == Some((name, rest))
  {
    ReadBackEnclosed('"', name, rest);
  }

  /** Quoting a string is injection-safe: a SQL lexer reading the quoted
      literal gets the original string back and stops exactly at its end. */
  lemma QuotedStringReadsBack(s: string, rest: string)
    requires |rest| == 0 || rest[0] != '\''
    ensures var lit := Quote(Str(s));
            lit[0] == '\'' && ReadQuotedBody('\'', lit[1..] + rest) == Some((s, rest))
  {
    ReadBackEnclosed('\'', s, rest);
  }

  // ------------------------------------------------------------ ordering

  function CompareInts(a: int, b: int): int
  {
    if a < b then -1 else if a > b then 1 else 0
  }

  function CompareDates(a: Date, b: Date): int
  {
    if a.year != b.year then CompareInts(a.year, b.year)
    else if a.month != b.month then CompareInts(a.month, b.month)
    else CompareInts(a.day, b.day)
  }

  function CompareTimes(a: Time, b: Time): int
  {
    if a.date != b.date then CompareDates(a.date, b.date)
    else if a.hour != b.hour then CompareInts(a.hour, b.hour)
    else if a.minute != b.minute then CompareInts(a.minute, b.minute)
    else if a.second != b.second then CompareInts(a.second, b.second)
    else CompareInts(a.usec, b.usec)
  }

  /** Values the database orders: numbers, durations, dates and times. */
  predicate Ordered(v: Scalar)
  {
    v.Int? || v.Duration? || v.DateValue? || v.TimeValue?
  }

  predicate SameKind(a: Scalar, b: Scalar)
  {
    (a.Int? && b.Int?) || (a.Duration? && b.Duration?) || (a.DateValue? && b.DateValue?) || (a.TimeValue? && b.TimeValue?)
  }

  /** How the database compares two values: -1, 0 or 1, or None when they
      are not comparable (different kinds, NULL, text). */
  function CompareValues(a: Scalar, b: Scalar): (r: Option<int>)
    ensures r.Some? <==> SameKind(a, b)
    ensures r.Some? ==> -1 <= r.value <= 1
    ensures r.Some? ==> (r.value == 0 <==> a == b)
  {
    match (a, b)
    case (Int(x), Int(y)) => Some(CompareInts(x, y))
    case (Duration(x), Duration(y)) => Some(CompareInts(x, y))
    case (DateValue(x), DateValue(y)) => Some(CompareDates(x, y))
    case (TimeValue(x), TimeValue(y)) => Some(CompareTimes(x, y))
    case _ => None
  }

  /** The comparison is antisymmetric, so it is a total order on each kind. */
  lemma CompareValuesAntisymmetric(a: Scalar, b: Scalar)
    requires SameKind(a, b)
    ensures CompareValues(b, a) == Some(-CompareValues(a, b).value)
  {
  }
}
