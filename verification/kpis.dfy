/** The KPI block of `update_dashboard`: revenue, distinct orders, units and average ticket
    over the filtered rows. */
module Kpis {
  import opened Seqs
  import opened Sales
  import opened Aggregates
  import Dashboard

  /** The `Ingreso Total` column. */
  function RevenueOf(s: Sale): real
  {
    s.Revenue()
  }

  /** The `Cantidad Pedida` column. */
  function QuantityOf(s: Sale): real
  {
    s.quantity
  }

  /** `data['Ingreso Total'].sum()`: the sum of quantity times price over the rows. */
  function TotalRevenue(data: seq<Sale>): real
  {
    SumOf(data, RevenueOf)
  }

  /** `data['Cantidad Pedida'].sum()`. */
  function TotalUnits(data: seq<Sale>): real
  {
    SumOf(data, QuantityOf)
  }

  /** The distinct order ids of the rows. */
  function OrderIds(data: seq<Sale>): (ids: set<string>)
    ensures forall i :: 0 <= i < |data| ==> data[i].orderId in ids
    ensures forall id :: id in ids ==> exists i :: 0 <= i < |data| && data[i].orderId == id
    ensures |ids| <= |data|
  {
    if |data| == 0 then {}
    else
      var rest := OrderIds(data[1..]);
      assert forall i :: 1 <= i < |data| ==> data[i] == data[1..][i - 1];
      {data[0].orderId} + rest
  }

  /** `data['ID de Pedido'].nunique()`. */
  function OrderCount(data: seq<Sale>): (n: nat)
    ensures n == |OrderIds(data)|
    ensures n <= |data|
    ensures n == 0 <==> |data| == 0
  {
    var ids := OrderIds(data);
    assert |data| > 0 ==> data[0].orderId in ids;
    |ids|
  }

  /** `ingresos / pedidos if pedidos > 0 else 0`. */
  function Ticket(data: seq<Sale>): (t: real)
    ensures OrderCount(data) > 0 ==> t * OrderCount(data) as real == TotalRevenue(data)
    ensures OrderCount(data) == 0 ==> t == 0.0
  {
    var n := OrderCount(data);
    if n > 0 then
      DivideThenMultiply(TotalRevenue(data), n as real);
      TotalRevenue(data) / n as real
    else 0.0
  }

  lemma DivideThenMultiply(x: real, y: real)
    requires y > 0.0
    ensures (x / y) * y == x
  {
  }

  /** The four figures shown on the KPI cards (lines 544-547). */
  datatype Summary = Summary(revenue: real, orders: nat, units: real, ticket: real)

  function Summarize(data: seq<Sale>): (k: Summary)
    ensures k.orders == 0 <==> |data| == 0
    ensures |data| == 0 ==> k == Summary(0.0, 0, 0.0, 0.0)
    ensures k.orders > 0 ==> k.ticket * k.orders as real == k.revenue
    ensures k.revenue == TotalRevenue(data) && k.units == TotalUnits(data)
    ensures k.orders == OrderCount(data)
  {
    Summary(TotalRevenue(data), OrderCount(data), TotalUnits(data), Ticket(data))
  }

  /** Revenue and units add up over a split of the rows. */
  lemma TotalsConcat(a: seq<Sale>, b: seq<Sale>)
    ensures TotalRevenue(a + b) == TotalRevenue(a) + TotalRevenue(b)
    ensures TotalUnits(a + b) == TotalUnits(a) + TotalUnits(b)
  {
    SumOfConcat(a, b, RevenueOf);
    SumOfConcat(a, b, QuantityOf);
  }

  /** Distinct orders of a split are the union of both halves' orders. */
  lemma OrderIdsConcat(a: seq<Sale>, b: seq<Sale>)
    ensures OrderIds(a + b) == OrderIds(a) + OrderIds(b)
  {
    var ab := a + b;
    forall id | id in OrderIds(a) + OrderIds(b)
      ensures id in OrderIds(ab)
    {
      if id in OrderIds(a) {
        var i :| 0 <= i < |a| && a[i].orderId == id;
        assert ab[i] == a[i];
      } else {
        var i :| 0 <= i < |b| && b[i].orderId == id;
        assert ab[|a| + i] == b[i];
      }
    }
  }

  /** Every row of a well-formed table has positive quantity and price. */
  predicate AllPositive(data: seq<Sale>)
  {
    forall i :: 0 <= i < |data| ==> data[i].quantity > 0.0 && data[i].unitPrice > 0.0
  }

  /** On cleaned rows, revenue and units are positive exactly when some row is shown. */
  lemma PositiveTotals(data: seq<Sale>)
    requires AllPositive(data)
    ensures TotalRevenue(data) > 0.0 <==> |data| > 0
    ensures TotalUnits(data) > 0.0 <==> |data| > 0
  {
    PositiveColumns(data);
    SumOfPositive(data, RevenueOf);
    SumOfPositive(data, QuantityOf);
  }

  lemma PositiveColumns(data: seq<Sale>)
    requires AllPositive(data)
    ensures PositiveOn(data, RevenueOf) && PositiveOn(data, QuantityOf)
  {
    forall i | 0 <= i < |data|
      ensures RevenueOf(data[i]) > 0.0
    {
      var q, p := data[i].quantity, data[i].unitPrice;
      assert q * p > 0.0;
    }
  }

  /** Filtering keeps part of the rows, so the shown revenue and units never exceed the totals
      over the rows it was taken from: the "% del total" shares are at most 100. */
  lemma SubsetTotals(a: seq<Sale>, b: seq<Sale>)
    requires IsSubsequence(a, b) && AllPositive(b)
    ensures TotalRevenue(a) <= TotalRevenue(b)
    ensures TotalUnits(a) <= TotalUnits(b)
  {
    PositiveColumns(b);
    SumOfSubsequence(a, b, RevenueOf);
    SumOfSubsequence(a, b, QuantityOf);
  }

  /** A subset of the rows has no more distinct orders. */
  lemma SubsetOrders(a: seq<Sale>, b: seq<Sale>)
    requires IsSubsequence(a, b)
    ensures OrderIds(a) <= OrderIds(b)
    ensures OrderCount(a) <= OrderCount(b)
  {
    SubsequenceMembers(a, b);
    forall id | id in OrderIds(a)
      ensures id in OrderIds(b)
    {
      var i :| 0 <= i < |a| && a[i].orderId == id;
      var j :| 0 <= j < |b| && b[j] == a[i];
    }
    SubsetCardinality(OrderIds(a), OrderIds(b));
  }

  lemma {:induction false} SubsetCardinality<T>(x: set<T>, y: set<T>)
    requires x <= y
    ensures |x| <= |y|
    decreases |x|
  {
    if x != {} {
      var e :| e in x;
      SubsetCardinality(x - {e}, y - {e});
    }
  }

  /** The KPI cards under any choice of filters never exceed the figures over all rows. */
  lemma FilteredKpis(f: Dashboard.Filters, rows: seq<Sale>)
    requires AllPositive(rows)
    ensures TotalRevenue(Dashboard.FilterData(f, rows)) <= TotalRevenue(rows)
    ensures TotalUnits(Dashboard.FilterData(f, rows)) <= TotalUnits(rows)
    ensures OrderCount(Dashboard.FilterData(f, rows)) <= OrderCount(rows)
  {
    SubsetTotals(Dashboard.FilterData(f, rows), rows);
    SubsetOrders(Dashboard.FilterData(f, rows), rows);
  }
}
