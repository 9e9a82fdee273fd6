/** The filter block of `update_dashboard` and the `reset_filtros` callback. */
module Dashboard {
  import opened Options
  import opened Seqs
  import opened Calendar
  import opened Sales

  /** Dropdown value meaning "no constraint" (masculine, used by most dropdowns). */
  const Todos: string := "Todos"
  /** Dropdown value meaning "no constraint" for `ciudad` and `categoria`. */
  const Todas: string := "Todas"

  /** The quarter dropdown holds either the string `'Todos'` or one of the integers 1..4. */
  datatype QuarterChoice = AnyQuarter | InQuarter(quarter: int)

  /** The inputs of `update_dashboard` that drive the filter, with the date picker's bounds
      already converted to dates. */
  datatype Filters = Filters(
    ciudad: string,
    estado: string,
    mes: string,
    dia: string,
    trimestre: QuarterChoice,
    categoria: string,
    rangoPrecio: string,
    start: Date,
    end: Date)

  /** One mask applied to the dataframe. */
  datatype Criterion =
    | StateIs(state: string)
    | CityIs(city: string)
    | MonthIs(month: string)
    | DayIs(day: string)
    | QuarterIs(quarter: int)
    | CategoryIs(category: string)
    | TierIs(tier: string)
    | Between(start: Date, end: Date)

  /** Whether a row passes a mask. A row without a price tier (NaN) never equals a tier. */
  predicate Holds(c: Criterion, s: Sale)
  {
    match c
    case StateIs(v) => s.stateName == v
    case CityIs(v) => s.place.city == v
    case MonthIs(v) => s.cal.month == v
    case DayIs(v) => s.cal.dayName == v
    case QuarterIs(q) => s.cal.quarter == q
    case CategoryIs(v) => s.category == v
    case TierIs(v) => s.priceTier == Some(v)
    case Between(a, b) => DateLe(a, s.cal.date) && DateLe(s.cal.date, b)
  }

  /** The mask as a value, for `Select`. */
  function HoldsFn(c: Criterion): Sale -> bool
  {
    s => Holds(c, s)
  }

  /** A row passes every mask of a list. */
  predicate AllHold(cs: seq<Criterion>, s: Sale)
  {
    |cs| == 0 || (Holds(cs[0], s) && AllHold(cs[1..], s))
  }

  function AllHoldFn(cs: seq<Criterion>): Sale -> bool
  {
    s => AllHold(cs, s)
  }

  /** `c` prepended when the dropdown is not on its sentinel, as each `if ... != 'Todos'` does. */
  function When(active: bool, c: Criterion, rest: seq<Criterion>): seq<Criterion>
  {
    if active then [c] + rest else rest
  }

  /** The masks `update_dashboard` applies, in the order it applies them (lines 520-536). */
  function Criteria(f: Filters): seq<Criterion>
  {
    When(f.estado != Todos, StateIs(f.estado),
    When(f.ciudad != Todas, CityIs(f.ciudad),
    MiddleCriteria(f)))
  }

  /** Successive `data = data[mask]` steps. */
  function Apply(cs: seq<Criterion>, rows: seq<Sale>): (data: seq<Sale>)
    ensures IsSubsequence(data, rows)
    ensures forall i :: 0 <= i < |data| ==> AllHold(cs, data[i])
    decreases |cs|
  {
    if |cs| == 0 then
      IsSubsequenceReflexive(rows);
      rows
    else
      var next := Select(rows, HoldsFn(cs[0]));
      var data := Apply(cs[1..], next);
      SelectIsSubsequence(rows, HoldsFn(cs[0]));
      IsSubsequenceTransitive(data, next, rows);
      SubsequenceMembers(data, next);
      data
  }

  /** Lines 518-536: the rows shown for a choice of filters. */
  function FilterData(f: Filters, rows: seq<Sale>): (data: seq<Sale>)
    ensures IsSubsequence(data, rows)
  {
    Apply(Criteria(f), rows)
  }

  /** The intended meaning of the filters, stated directly: each dropdown either sits on its
      sentinel or equals the row's column, and the date lies in the inclusive range. */
  predicate Matches(f: Filters, s: Sale)
  {
    && (f.estado == Todos || s.stateName == f.estado)
    && (f.ciudad == Todas || s.place.city == f.ciudad)
    && (f.mes == Todos || s.cal.month == f.mes)
    && (f.dia == Todos || s.cal.dayName == f.dia)
    && (f.trimestre.AnyQuarter? || s.cal.quarter == f.trimestre.quarter)
    && (f.categoria == Todas || s.category == f.categoria)
    && (f.rangoPrecio == Todos || s.priceTier == Some(f.rangoPrecio))
    && DateLe(f.start, s.cal.date) && DateLe(s.cal.date, f.end)
  }

  function MatchesFn(f: Filters): Sale -> bool
  {
    s => Matches(f, s)
  }

  /** Applying the masks one after another selects the rows passing all of them. */
  lemma {:induction false} ApplySelects(cs: seq<Criterion>, rows: seq<Sale>)
    ensures Apply(cs, rows) == Select(rows, AllHoldFn(cs))
    decreases |cs|
  {
    if |cs| == 0 {
      SelectAll(rows, AllHoldFn(cs));
    } else {
      ApplySelects(cs[1..], Select(rows, HoldsFn(cs[0])));
      SelectSelect(rows, HoldsFn(cs[0]), AllHoldFn(cs[1..]), AllHoldFn(cs));
    }
  }

  lemma WhenHolds(active: bool, c: Criterion, rest: seq<Criterion>, s: Sale)
    ensures AllHold(When(active, c, rest), s) <==> (!active || Holds(c, s)) && AllHold(rest, s)
  {
    if active {
      assert ([c] + rest)[1..] == rest;
    }
  }

  /** The masks of `Criteria(f)` all hold exactly when the row matches the filters. */
  lemma CriteriaMeaning(f: Filters, s: Sale)
    ensures AllHold(Criteria(f), s) <==> Matches(f, s)
  {
    var c3 := MiddleCriteria(f);
    MiddleCriteriaMeaning(f, s);
    var c2 := When(f.ciudad != Todas, CityIs(f.ciudad), c3);
    WhenHolds(f.ciudad != Todas, CityIs(f.ciudad), c3, s);
    WhenHolds(f.estado != Todos, StateIs(f.estado), c2, s);
  }

  /** The masks on month and day, then the later ones (lines 524-536). */
  function MiddleCriteria(f: Filters): seq<Criterion>
  {
    When(f.mes != Todos, MonthIs(f.mes),
    When(f.dia != Todos, DayIs(f.dia),
    LaterCriteria(f)))
  }

  lemma MiddleCriteriaMeaning(f: Filters, s: Sale)
    ensures AllHold(MiddleCriteria(f), s) <==>
      && (f.mes == Todos || s.cal.month == f.mes)
      && (f.dia == Todos || s.cal.dayName == f.dia)
      && (f.trimestre.AnyQuarter? || s.cal.quarter == f.trimestre.quarter)
      && (f.categoria == Todas || s.category == f.categoria)
      && (f.rangoPrecio == Todos || s.priceTier == Some(f.rangoPrecio))
      && DateLe(f.start, s.cal.date) && DateLe(s.cal.date, f.end)
  {
    var c5 := LaterCriteria(f);
    LaterCriteriaMeaning(f, s);
    var c4 := When(f.dia != Todos, DayIs(f.dia), c5);
    WhenHolds(f.dia != Todos, DayIs(f.dia), c5, s);
    WhenHolds(f.mes != Todos, MonthIs(f.mes), c4, s);
  }

  /** The masks from the quarter onwards (lines 528-536). */
  function LaterCriteria(f: Filters): seq<Criterion>
  {
    When(f.trimestre.InQuarter?, QuarterIs(if f.trimestre.InQuarter? then f.trimestre.quarter else 0),
    When(f.categoria != Todas, CategoryIs(f.categoria),
    When(f.rangoPrecio != Todos, TierIs(f.rangoPrecio),
    [Between(f.start, f.end)])))
  }

  lemma LaterCriteriaMeaning(f: Filters, s: Sale)
    ensures AllHold(LaterCriteria(f), s) <==>
      && (f.trimestre.AnyQuarter? || s.cal.quarter == f.trimestre.quarter)
      && (f.categoria == Todas || s.category == f.categoria)
      && (f.rangoPrecio == Todos || s.priceTier == Some(f.rangoPrecio))
      && DateLe(f.start, s.cal.date) && DateLe(s.cal.date, f.end)
  {
    var c8 := [Between(f.start, f.end)];
    var c7 := When(f.rangoPrecio != Todos, TierIs(f.rangoPrecio), c8);
    var c6 := When(f.categoria != Todas, CategoryIs(f.categoria), c7);
    var q := if f.trimestre.InQuarter? then f.trimestre.quarter else 0;
    var inRange := DateLe(f.start, s.cal.date) && DateLe(s.cal.date, f.end);
    assert c8[1..] == [];
    assert AllHold(c8, s) == inRange;
    WhenHolds(f.rangoPrecio != Todos, TierIs(f.rangoPrecio), c8, s);
    var m7 := (f.rangoPrecio == Todos || s.priceTier == Some(f.rangoPrecio)) && inRange;
    assert AllHold(c7, s) == m7;
    WhenHolds(f.categoria != Todas, CategoryIs(f.categoria), c7, s);
    var m6 := (f.categoria == Todas || s.category == f.categoria) && m7;
    assert AllHold(c6, s) == m6;
    WhenHolds(f.trimestre.InQuarter?, QuarterIs(q), c6, s);
  }

  /** The filtered data is exactly the subsequence of rows matching the filters. */
  lemma FilterSelectsMatches(f: Filters, rows: seq<Sale>)
    ensures FilterData(f, rows) == Select(rows, MatchesFn(f))
  {
    ApplySelects(Criteria(f), rows);
    forall i | 0 <= i < |rows|
      ensures AllHoldFn(Criteria(f))(rows[i]) == MatchesFn(f)(rows[i])
    {
      CriteriaMeaning(f, rows[i]);
    }
    SelectCongruent(rows, AllHoldFn(Criteria(f)), MatchesFn(f));
  }

  /** `g` constrains at least as much as `f`: every dropdown of `f` is on its sentinel or
      `g` picks the same value, and `g`'s date range lies inside `f`'s. */
  predicate Refines(g: Filters, f: Filters)
  {
    && (f.estado == Todos || g.estado == f.estado)
    && (f.ciudad == Todas || g.ciudad == f.ciudad)
    && (f.mes == Todos || g.mes == f.mes)
    && (f.dia == Todos || g.dia == f.dia)
    && (f.trimestre.AnyQuarter? || g.trimestre == f.trimestre)
    && (f.categoria == Todas || g.categoria == f.categoria)
    && (f.rangoPrecio == Todos || g.rangoPrecio == f.rangoPrecio)
    && DateLe(f.start, g.start) && DateLe(g.end, f.end)
  }

  /** Narrowing the filters shows a subsequence of the rows, never more of them. */
  lemma NarrowerShowsLess(g: Filters, f: Filters, rows: seq<Sale>)
    requires Refines(g, f)
    ensures IsSubsequence(FilterData(g, rows), FilterData(f, rows))
    ensures |FilterData(g, rows)| <= |FilterData(f, rows)|
  {
    FilterSelectsMatches(f, rows);
    FilterSelectsMatches(g, rows);
    forall i | 0 <= i < |rows|
      ensures MatchesFn(g)(rows[i]) ==> MatchesFn(f)(rows[i])
    {
      if Matches(g, rows[i]) {
        DateLeTransitive(f.start, g.start, rows[i].cal.date);
        DateLeTransitive(rows[i].cal.date, g.end, f.end);
      }
    }
    SelectStronger(rows, MatchesFn(f), MatchesFn(g));
  }

  /** The dates of the rows (`df['Fecha']`). */
  function Dates(rows: seq<Sale>): (ds: seq<Date>)
    ensures |ds| == |rows|
    ensures forall i :: 0 <= i < |rows| ==> ds[i] == rows[i].cal.date
  {
    seq(|rows|, i requires 0 <= i < |rows| => rows[i].cal.date)
  }

  /** What `reset_filtros` writes back: `estado`, `mes`, `dia`, `trimestre`, `categoria`,
      `rango_precio` and the date picker's bounds (`ciudad` is not among its outputs). */
  datatype Reset = Reset(
    estado: string,
    mes: string,
    dia: string,
    trimestre: QuarterChoice,
    categoria: string,
    rangoPrecio: string,
    start: Option<Date>,
    end: Option<Date>)

  /** Lines 485-489. `None` is `[no_update] * 8`; the min and max of an empty date column are
      NaT, written `None` here. */
  function ResetFilters(nClicks: Option<int>, rows: seq<Sale>): (r: Option<Reset>)
    ensures r.None? <==> nClicks.None? || nClicks.value == 0
    ensures r.Some? ==> (r.value.estado == Todos && r.value.mes == Todos && r.value.dia == Todos
      && r.value.trimestre == AnyQuarter && r.value.categoria == Todas && r.value.rangoPrecio == Todos)
    ensures r.Some? ==> (r.value.start.Some? <==> |rows| > 0) && (r.value.end.Some? <==> |rows| > 0)
    ensures r.Some? && |rows| > 0 ==>
      && r.value.start.value in Dates(rows) && r.value.end.value in Dates(rows)
      && forall i :: 0 <= i < |rows| ==>
           DateLe(r.value.start.value, rows[i].cal.date) && DateLe(rows[i].cal.date, r.value.end.value)
  {
    if nClicks.None? || nClicks.value == 0 then None
    else
      var ds := Dates(rows);
      Some(Reset(Todos, Todos, Todos, AnyQuarter, Todas, Todos,
                 if |ds| > 0 then Some(MinDate(ds)) else None,
                 if |ds| > 0 then Some(MaxDate(ds)) else None))
  }

  /** The filters after a reset, with `ciudad` on its own sentinel. */
  function AfterReset(r: Reset, ciudad: string): (f: Filters)
    requires r.start.Some? && r.end.Some?
  {
    Filters(ciudad, r.estado, r.mes, r.dia, r.trimestre, r.categoria, r.rangoPrecio,
            r.start.value, r.end.value)
  }

  /** After a click on reset, with the city dropdown on `'Todas'`, every row is shown. */
  lemma ResetShowsEverything(nClicks: Option<int>, rows: seq<Sale>)
    requires nClicks.Some? && nClicks.value != 0 && |rows| > 0
    ensures FilterData(AfterReset(ResetFilters(nClicks, rows).value, Todas), rows) == rows
  {
    var f := AfterReset(ResetFilters(nClicks, rows).value, Todas);
    FilterSelectsMatches(f, rows);
    SelectAll(rows, MatchesFn(f));
  }
}
