/** The sale record before and after feature derivation. */
module Sales {
  import opened Options
  import opened Calendar
  import Location
  import Category
  import PriceTier
  import States

  /** One line of an input file as `pd.read_csv` and the coercions hand it over. `None` stands for
      NaN / NaT: an empty order-id cell, a quantity or price `pd.to_numeric(errors='coerce')` could
      not read, a timestamp `pd.to_datetime(format='%m/%d/%y %H:%M', errors='coerce')` could not read. */
  datatype RawRow = RawRow(
    orderId: Option<string>,
    product: string,
    quantity: Option<real>,
    unitPrice: Option<real>,
    timestamp: Option<ParsedTimestamp>,
    address: string)

  /** The order-id cell of a header line repeated inside a file. */
  const HeaderId: string := "Order ID"

  /** A row survives cleaning: a real order id, positive quantity and price, a parsed timestamp. */
  predicate IsValid(r: RawRow)
  {
    && r.orderId.Some? && r.orderId.value != HeaderId
    && r.quantity.Some? && r.quantity.value > 0.0
    && r.unitPrice.Some? && r.unitPrice.value > 0.0
    && r.timestamp.Some?
  }

  /** A cleaned, feature-enriched row of the dashboard's dataframe. */
  datatype Sale = Sale(
    orderId: string,
    product: string,
    quantity: real,
    unitPrice: real,
    timestamp: ParsedTimestamp,
    address: string,
    cal: CalendarColumns,
    place: Location.Place,
    stateName: string,
    category: string,
    priceTier: Option<string>)
  {
    /** `df['Ingreso Total']`: quantity times unit price. */
    function Revenue(): real
    {
      quantity * unitPrice
    }

    /** The input row this record was derived from. */
    function Source(): RawRow
    {
      RawRow(Some(orderId), product, Some(quantity), Some(unitPrice), Some(timestamp), address)
    }
  }

  /** Every derived column agrees with the raw columns, and the validity filter held. */
  predicate WellFormed(s: Sale)
  {
    && IsValid(s.Source())
    && s.cal == ColumnsOf(s.timestamp)
    && s.place == Location.ExtractLocation(s.address)
    && s.stateName == States.StateName(s.place.state)
    && s.category == Category.Categorize(s.product)
    && s.priceTier == PriceTier.TierOf(s.unitPrice)
  }

  /** Lines 73 and 78-166 of the script for one surviving row. */
  function Derive(r: RawRow): (s: Sale)
    requires IsValid(r)
    ensures WellFormed(s)
    ensures s.Source() == r
  {
    var q, p, t := r.quantity.value, r.unitPrice.value, r.timestamp.value;
    var place := Location.ExtractLocation(r.address);
    Sale(r.orderId.value, r.product, q, p, t, r.address, ColumnsOf(t),
         place, States.StateName(place.state), Category.Categorize(r.product), PriceTier.TierOf(p))
  }

  /** A record is determined by its source row: deriving it again changes nothing. */
  lemma DeriveSource(s: Sale)
    requires WellFormed(s)
    ensures Derive(s.Source()) == s
  {
    var d := Derive(s.Source());
    assert d.orderId == s.orderId && d.product == s.product && d.address == s.address;
    assert d.quantity == s.quantity && d.unitPrice == s.unitPrice && d.timestamp == s.timestamp;
    assert d.cal == s.cal;
    assert d.place == s.place && d.stateName == s.stateName;
    assert d.category == s.category && d.priceTier == s.priceTier;
  }
}
