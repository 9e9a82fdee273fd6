/** `estados_usa` and `df['Estado Nombre']`: the full state name looked up from the code,
    falling back to the code itself. */
module States {
  import Seqs

  /** The 50-entry abbreviation table, in declaration order, five entries per row as written. */
  const Table: seq<(string, string)> := Rows0 + Rows1 + Rows2 + Rows3 + Rows4 + Rows5 + Rows6 + Rows7 + Rows8 + Rows9

  const Rows0: seq<(string, string)> := [("AL", "Alabama"), ("AK", "Alaska"), ("AZ", "Arizona"), ("AR", "Arkansas"), ("CA", "California")]
  const Rows1: seq<(string, string)> := [("CO", "Colorado"), ("CT", "Connecticut"), ("DE", "Delaware"), ("FL", "Florida"), ("GA", "Georgia")]
  const Rows2: seq<(string, string)> := [("HI", "Hawaii"), ("ID", "Idaho"), ("IL", "Illinois"), ("IN", "Indiana"), ("IA", "Iowa")]
  const Rows3: seq<(string, string)> := [("KS", "Kansas"), ("KY", "Kentucky"), ("LA", "Louisiana"), ("ME", "Maine"), ("MD", "Maryland")]
  const Rows4: seq<(string, string)> := [("MA", "Massachusetts"), ("MI", "Michigan"), ("MN", "Minnesota"), ("MS", "Mississippi"), ("MO", "Missouri")]
  const Rows5: seq<(string, string)> := [("MT", "Montana"), ("NE", "Nebraska"), ("NV", "Nevada"), ("NH", "New Hampshire"), ("NJ", "New Jersey")]
  const Rows6: seq<(string, string)> := [("NM", "New Mexico"), ("NY", "Nueva York"), ("NC", "North Carolina"), ("ND", "North Dakota"), ("OH", "Ohio")]
  const Rows7: seq<(string, string)> := [("OK", "Oklahoma"), ("OR", "Oregon"), ("PA", "Pennsylvania"), ("RI", "Rhode Island"), ("SC", "South Carolina")]
  const Rows8: seq<(string, string)> := [("SD", "South Dakota"), ("TN", "Tennessee"), ("TX", "Texas"), ("UT", "Utah"), ("VT", "Vermont")]
  const Rows9: seq<(string, string)> := [("VA", "Virginia"), ("WA", "Washington"), ("WV", "West Virginia"), ("WI", "Wisconsin"), ("WY", "Wyoming")]

  /** Every entry pairs a two-character code with a longer name. */
  predicate Shaped(t: seq<(string, string)>)
  {
    forall i :: 0 <= i < |t| ==> |t[i].0| == 2 && |t[i].1| > 2
  }

  lemma ShapedConcat(a: seq<(string, string)>, b: seq<(string, string)>)
    requires Shaped(a) && Shaped(b)
    ensures Shaped(a + b)
  {
    assert forall i :: |a| <= i < |a + b| ==> (a + b)[i] == b[i - |a|];
  }

  /** No name in the table is itself a code. */
  lemma TableShaped()
    ensures Shaped(Table)
  {
    assert Shaped(Rows0);
    assert Shaped(Rows1);
    assert Shaped(Rows2);
    assert Shaped(Rows3);
    assert Shaped(Rows4);
    assert Shaped(Rows5);
    assert Shaped(Rows6);
    assert Shaped(Rows7);
    assert Shaped(Rows8);
    assert Shaped(Rows9);
    var t := Rows0;
    ShapedConcat(t, Rows1);
    t := t + Rows1;
    ShapedConcat(t, Rows2);
    t := t + Rows2;
    ShapedConcat(t, Rows3);
    t := t + Rows3;
    ShapedConcat(t, Rows4);
    t := t + Rows4;
    ShapedConcat(t, Rows5);
    t := t + Rows5;
    ShapedConcat(t, Rows6);
    t := t + Rows6;
    ShapedConcat(t, Rows7);
    t := t + Rows7;
    ShapedConcat(t, Rows8);
    t := t + Rows8;
    ShapedConcat(t, Rows9);
    t := t + Rows9;
  }

  /** Dictionary lookup with a fallback: the value of the first entry whose key is `key`,
      or `key` itself when no entry has it. */
  function Lookup(t: seq<(string, string)>, key: string): (v: string)
    requires Shaped(t)
    ensures forall i :: 0 <= i < |t| && t[i].0 == key && (forall j :: 0 <= j < i ==> t[j].0 != key)
              ==> v == t[i].1
    ensures v == key <==> forall i :: 0 <= i < |t| ==> t[i].0 != key
  {
    var i := Seqs.FirstIndex(t, (e: (string, string)) => e.0 == key);
    if i < |t| then t[i].1 else key
  }

  /** `df['Estado'].map(estados_usa).fillna(df['Estado'])` for one code: the name of the code's
      entry when it is listed, the code unchanged otherwise; the name equals the code exactly when
      the code is not listed. */
  function StateName(code: string): (name: string)
    ensures forall i :: 0 <= i < |Table| && Table[i].0 == code && (forall j :: 0 <= j < i ==> Table[j].0 != code)
              ==> name == Table[i].1
    ensures name == code <==> forall i :: 0 <= i < |Table| ==> Table[i].0 != code
  {
    TableShaped();
    Lookup(Table, code)
  }

  /** Rows whose address could not be decomposed keep the fallback label as their state name,
      and rows with a blank state segment keep the empty name. */
  lemma UnlistedPassThrough()
    ensures StateName("Desconocido") == "Desconocido"
    ensures StateName("") == ""
  {
    TableShaped();
  }

  lemma TableSize()
    ensures |Table| == 50
  {
  }
}
