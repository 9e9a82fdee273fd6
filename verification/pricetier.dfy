/** `pd.cut(df['Precio Unitario'], bins=[0, 20, 100, 500, 1000, 10000], labels=[...])`:
    the price tier of a unit price, by right-closed bins. */
module PriceTier {
  import opened Options

  /** Bin edges must increase strictly (`pd.cut` rejects anything else). */
  predicate Increasing(edges: seq<real>)
  {
    forall i, j :: 0 <= i < j < |edges| ==> edges[i] < edges[j]
  }

  /** `pd.cut` with `right=True`: the index `i` of the bin `(edges[i], edges[i+1]]` holding `x`,
      or None (NaN) when `x` lies at or below the first edge or above the last one. */
  function Cut(edges: seq<real>, x: real): (r: Option<nat>)
    requires Increasing(edges)
    ensures r.Some? <==> |edges| >= 2 && edges[0] < x <= edges[|edges| - 1]
    ensures r.Some? ==> r.value + 1 < |edges| && edges[r.value] < x <= edges[r.value + 1]
    decreases |edges|
  {
    if |edges| < 2 || x <= edges[0] then None
    else if x <= edges[1] then Some(0)
    else
      match Cut(edges[1..], x)
      case None => None
      case Some(i) => Some(i + 1)
  }

  /** Bins do not overlap: any bin that holds `x` is the one `Cut` reports. */
  lemma CutUnique(edges: seq<real>, x: real, i: nat)
    requires Increasing(edges)
    requires i + 1 < |edges| && edges[i] < x <= edges[i + 1]
    ensures Cut(edges, x) == Some(i)
  {
  }

  /** A larger price never falls in a lower bin. */
  lemma CutMonotone(edges: seq<real>, x: real, y: real)
    requires Increasing(edges)
    requires x <= y && Cut(edges, x).Some? && Cut(edges, y).Some?
    ensures Cut(edges, x).value <= Cut(edges, y).value
  {
  }

  /** The script's bin edges. */
  const Edges: seq<real> := [0.0, 20.0, 100.0, 500.0, 1000.0, 10000.0]

  /** The script's bin labels, cheapest first. */
  const Tiers: seq<string> := ["Económico", "Medio", "Premium", "Alta Gama", "Lujo"]

  /** `df['Rango Precio']` for one unit price; None where pandas leaves NaN. */
  function TierOf(price: real): (t: Option<string>)
    ensures t.Some? <==> 0.0 < price <= 10000.0
    ensures t == Some("Económico") <==> 0.0 < price <= 20.0
    ensures t == Some("Medio") <==> 20.0 < price <= 100.0
    ensures t == Some("Premium") <==> 100.0 < price <= 500.0
    ensures t == Some("Alta Gama") <==> 500.0 < price <= 1000.0
    ensures t == Some("Lujo") <==> 1000.0 < price <= 10000.0
  {
    assert Increasing(Edges);
    match Cut(Edges, price)
    case None => None
    case Some(i) => Some(Tiers[i])
  }

  /** The index of a tier label in the cheapest-first order. */
  function TierRank(t: string): (k: int)
    ensures t in Tiers ==> 0 <= k < |Tiers| && Tiers[k] == t
    ensures t !in Tiers ==> k == -1
  {
    if t == "Económico" then 0
    else if t == "Medio" then 1
    else if t == "Premium" then 2
    else if t == "Alta Gama" then 3
    else if t == "Lujo" then 4
    else -1
  }

  /** The tier is monotone in the price: a dearer item never gets a cheaper tier. */
  lemma TierMonotone(p: real, q: real)
    requires p <= q && TierOf(p).Some? && TierOf(q).Some?
    ensures TierRank(TierOf(p).value) <= TierRank(TierOf(q).value)
  {
    assert Increasing(Edges);
    CutMonotone(Edges, p, q);
    TierRankIsBin(p);
    TierRankIsBin(q);
  }

  /** The rank of a price's tier is the index of its bin. */
  lemma TierRankIsBin(p: real)
    requires TierOf(p).Some?
    ensures Increasing(Edges) && Cut(Edges, p).Some?
    ensures TierRank(TierOf(p).value) == Cut(Edges, p).value
  {
    assert Increasing(Edges);
    var i := Cut(Edges, p).value;
    assert TierOf(p).value == Tiers[i];
  }
}
