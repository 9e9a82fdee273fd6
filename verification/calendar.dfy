/** Calendar parts of a parsed order timestamp and the Spanish month and weekday names
    the dashboard filters on. */
module Calendar {

  /** A calendar day (`df['Fecha']`, the date part of the timestamp). */
  datatype Date = Date(year: int, month: int, day: int)

  /** Chronological order on days, as Python compares `datetime.date` values. */
  predicate DateLe(a: Date, b: Date)
  {
    || a.year < b.year
    || (a.year == b.year && a.month < b.month)
    || (a.year == b.year && a.month == b.month && a.day <= b.day)
  }

  lemma DateLeTransitive(a: Date, b: Date, c: Date)
    requires DateLe(a, b) && DateLe(b, c)
    ensures DateLe(a, c)
  {
  }

  /** Two days each no later than the other are the same day. */
  lemma DateLeAntisymmetric(a: Date, b: Date)
    requires DateLe(a, b) && DateLe(b, a)
    ensures a == b
  {
  }

  /** A timestamp as `pd.to_datetime(..., format='%m/%d/%y %H:%M')` delivers it, with the weekday
      index of `dt.dayofweek` (0 = Monday ... 6 = Sunday). */
  datatype Timestamp = Timestamp(year: int, month: int, day: int, hour: int, minute: int, weekday: int)
  {
    /** The ranges the parser guarantees for each field. */
    predicate Valid()
    {
      && 1 <= month <= 12
      && 1 <= day <= 31
      && 0 <= hour <= 23
      && 0 <= minute <= 59
      && 0 <= weekday <= 6
    }

    function DateOf(): Date
    {
      Date(year, month, day)
    }
  }

  /** A successfully parsed timestamp. */
  type ParsedTimestamp = t: Timestamp | t.Valid() witness Timestamp(2019, 1, 1, 0, 0, 1)

  /** `dt.quarter`: the quarter of the year that contains `month`. */
  function Quarter(month: int): (q: int)
    requires 1 <= month <= 12
    ensures 1 <= q <= 4
    ensures 3 * (q - 1) < month <= 3 * q
  {
    (month - 1) / 3 + 1
  }

  /** `mapa_meses`, month number 1..12 to its Spanish name. */
  const MonthNames: seq<string> :=
    ["Enero", "Febrero", "Marzo", "Abril", "Mayo", "Junio",
     "Julio", "Agosto", "Septiembre", "Octubre", "Noviembre", "Diciembre"]

  /** `df['Mes']`: the Spanish name of a month number. */
  function MonthName(month: int): string
    requires 1 <= month <= 12
  {
    MonthNames[month - 1]
  }

  /** Distinct months have distinct names, so filtering on `'Mes'` is filtering on the month number. */
  lemma MonthNameInjective(m1: int, m2: int)
    requires 1 <= m1 <= 12 && 1 <= m2 <= 12
    ensures MonthName(m1) == MonthName(m2) <==> m1 == m2
  {
  }

  /** `dt.day_name()`, indexed by `dt.dayofweek`. */
  const EnglishDayNames: seq<string> :=
    ["Monday", "Tuesday", "Wednesday", "Thursday", "Friday", "Saturday", "Sunday"]

  /** `dias_espanol`, the English weekday name to its Spanish name. */
  const SpanishDays: map<string, string> :=
    map["Monday" := "Lunes", "Tuesday" := "Martes", "Wednesday" := "Miércoles",
        "Thursday" := "Jueves", "Friday" := "Viernes", "Saturday" := "Sábado", "Sunday" := "Domingo"]

  /** The Spanish weekday names, Monday first. */
  const SpanishDayNames: seq<string> :=
    ["Lunes", "Martes", "Miércoles", "Jueves", "Viernes", "Sábado", "Domingo"]

  /** `df['Día']` after line 103 of the script: the Spanish weekday name of a weekday index. */
  function DayName(weekday: int): (name: string)
    requires 0 <= weekday <= 6
  {
    SpanishDayNames[weekday]
  }

  /** `DayName` is the composition the script performs: `day_name()` followed by `dias_espanol`. */
  lemma DayNameTranslates(weekday: int)
    requires 0 <= weekday <= 6
    ensures EnglishDayNames[weekday] in SpanishDays
    ensures DayName(weekday) == SpanishDays[EnglishDayNames[weekday]]
  {
  }

  /** Distinct weekdays have distinct Spanish names, so filtering on `'Día'` is filtering on the index. */
  lemma DayNameInjective(d1: int, d2: int)
    requires 0 <= d1 <= 6 && 0 <= d2 <= 6
    ensures DayName(d1) == DayName(d2) <==> d1 == d2
  {
  }

  /** `df['Es Finde']`: the weekday index is 5 (Saturday) or 6 (Sunday). */
  predicate IsWeekend(weekday: int)
  {
    weekday in {5, 6}
  }

  /** The weekend flag agrees with the Spanish day name shown in the weekday filter. */
  lemma WeekendByName(weekday: int)
    requires 0 <= weekday <= 6
    ensures IsWeekend(weekday) <==> DayName(weekday) == "Sábado" || DayName(weekday) == "Domingo"
  {
  }

  /** The calendar columns the script derives from `'Fecha Pedido'` (lines 78-104). */
  datatype CalendarColumns = CalendarColumns(
    date: Date,
    monthNum: int,
    hour: int,
    weekday: int,
    quarter: int,
    month: string,
    dayName: string,
    isWeekend: bool)

  /** All calendar columns of one parsed timestamp. */
  function ColumnsOf(t: ParsedTimestamp): (c: CalendarColumns)
    ensures c.date == t.DateOf() && c.monthNum == t.month && c.hour == t.hour && c.weekday == t.weekday
    ensures 1 <= c.quarter <= 4 && 3 * (c.quarter - 1) < t.month <= 3 * c.quarter
    ensures c.month == MonthName(t.month) && c.dayName == DayName(t.weekday)
    ensures c.isWeekend <==> c.dayName == "Sábado" || c.dayName == "Domingo"
  {
    WeekendByName(t.weekday);
    CalendarColumns(t.DateOf(), t.month, t.hour, t.weekday, Quarter(t.month),
                    MonthName(t.month), DayName(t.weekday), IsWeekend(t.weekday))
  }

  /** `df['Fecha'].min()` over a non-empty column. */
  function MinDate(ds: seq<Date>): (m: Date)
    requires |ds| > 0
    ensures m in ds
    ensures forall i :: 0 <= i < |ds| ==> DateLe(m, ds[i])
  {
    if |ds| == 1 then ds[0]
    else
      var rest := MinDate(ds[1..]);
      if DateLe(ds[0], rest) then ds[0] else rest
  }

  /** `df['Fecha'].max()` over a non-empty column. */
  function MaxDate(ds: seq<Date>): (m: Date)
    requires |ds| > 0
    ensures m in ds
    ensures forall i :: 0 <= i < |ds| ==> DateLe(ds[i], m)
  {
    if |ds| == 1 then ds[0]
    else
      var rest := MaxDate(ds[1..]);
      if DateLe(rest, ds[0]) then ds[0] else rest
  }

  /** A date of the column that is no later than every date is exactly `min()`. */
  lemma MinDateUnique(ds: seq<Date>, d: Date)
    requires d in ds
    requires forall i :: 0 <= i < |ds| ==> DateLe(d, ds[i])
    ensures d == MinDate(ds)
  {
    DateLeAntisymmetric(d, MinDate(ds));
  }

  /** A date of the column that is no earlier than every date is exactly `max()`. */
  lemma MaxDateUnique(ds: seq<Date>, d: Date)
    requires d in ds
    requires forall i :: 0 <= i < |ds| ==> DateLe(ds[i], d)
    ensures d == MaxDate(ds)
  {
    DateLeAntisymmetric(MaxDate(ds), d);
  }
}
