/** Loading and cleaning: the batches of all input files, concatenated, with invalid rows
    dropped and every surviving row enriched with its derived columns. */
module Cleaning {
  import opened Options
  import opened Seqs
  import opened Sales

  /** The order id is present and is not a repeated header. */
  predicate HasOrderId(x: RawRow)
  {
    x.orderId.Some? && x.orderId.value != HeaderId
  }

  /** Not a line repeating the header (line 53 keeps rows whose id differs from it). */
  predicate NotHeader(x: RawRow)
  {
    x.orderId != Some(HeaderId)
  }

  /** The id cell is not empty (line 54). */
  predicate IdPresent(x: RawRow)
  {
    x.orderId.Some?
  }

  /** Quantity and price coerce to numbers and both are positive (lines 67-70). */
  predicate PositiveNumbers(x: RawRow)
  {
    x.quantity.Some? && x.unitPrice.Some? && x.quantity.value > 0.0 && x.unitPrice.value > 0.0
  }

  /** The timestamp parses (lines 76-77). */
  predicate Dated(x: RawRow)
  {
    x.timestamp.Some?
  }

  /** Lines 53-54 for one file: drop the lines repeating the header, then the lines without an id. */
  function ReadBatch(rows: seq<RawRow>): (batch: seq<RawRow>)
    ensures batch == Select(rows, HasOrderId)
  {
    BatchFilters(rows);
    Select(Select(rows, NotHeader), IdPresent)
  }

  lemma BatchFilters(rows: seq<RawRow>)
    ensures Select(Select(rows, NotHeader), IdPresent) == Select(rows, HasOrderId)
  {
    SelectSelect(rows, NotHeader, IdPresent, HasOrderId);
  }

  /** Lines 48-58: the batch of every file, concatenated in the order the files were found. */
  function Ingest(files: seq<seq<RawRow>>): (rows: seq<RawRow>)
    ensures rows == Select(Concat(files), HasOrderId)
  {
    var batches := seq(|files|, i requires 0 <= i < |files| => ReadBatch(files[i]));
    assert batches == seq(|files|, i requires 0 <= i < |files| => Select(files[i], HasOrderId));
    SelectConcatAll(files, HasOrderId);
    Concat(batches)
  }

  /** The records derived from rows that all passed validation, one for one. */
  function DeriveAll(rows: seq<RawRow>): (sales: seq<Sale>)
    requires forall i :: 0 <= i < |rows| ==> IsValid(rows[i])
    ensures |sales| == |rows|
    ensures forall i :: 0 <= i < |rows| ==> WellFormed(sales[i]) && sales[i].Source() == rows[i]
  {
    seq(|rows|, i requires 0 <= i < |rows| => Derive(rows[i]))
  }

  /** The input row behind each record. */
  function Sources(sales: seq<Sale>): (rows: seq<RawRow>)
    ensures |rows| == |sales|
    ensures forall i :: 0 <= i < |sales| ==> rows[i] == sales[i].Source()
  {
    seq(|sales|, i requires 0 <= i < |sales| => sales[i].Source())
  }

  /** Lines 67-166 on the ingested rows (all of which carry an order id): keep the rows whose
      quantity and price coerce to positive numbers, then the rows whose timestamp parses, and
      derive the columns of each survivor. The rows kept are exactly the valid ones, in order. */
  function Wrangle(rows: seq<RawRow>): (sales: seq<Sale>)
    requires forall i :: 0 <= i < |rows| ==> HasOrderId(rows[i])
    ensures forall i :: 0 <= i < |sales| ==> WellFormed(sales[i])
    ensures Sources(sales) == Select(rows, IsValid)
  {
    RowFilters(rows);
    DeriveAll(Select(Select(rows, PositiveNumbers), Dated))
  }

  lemma RowFilters(rows: seq<RawRow>)
    requires forall i :: 0 <= i < |rows| ==> HasOrderId(rows[i])
    ensures Select(Select(rows, PositiveNumbers), Dated) == Select(rows, IsValid)
  {
    SelectSelect(rows, PositiveNumbers, Dated, IsValid);
  }

  /** The whole cleaning stage: ingest every file, then validate and enrich. */
  function Clean(files: seq<seq<RawRow>>): (sales: seq<Sale>)
    ensures forall i :: 0 <= i < |sales| ==> WellFormed(sales[i])
    ensures Sources(sales) == Select(Concat(files), IsValid)
  {
    IngestThenValidate(Concat(files));
    Wrangle(Ingest(files))
  }

  lemma IngestThenValidate(rows: seq<RawRow>)
    ensures Select(Select(rows, HasOrderId), IsValid) == Select(rows, IsValid)
  {
    SelectSelect(rows, HasOrderId, IsValid, IsValid);
  }

  /** Records are determined by their sources, so two well-formed tables with the same
      sources are equal. */
  lemma {:induction false} SameSources(a: seq<Sale>, b: seq<Sale>)
    requires forall i :: 0 <= i < |a| ==> WellFormed(a[i])
    requires forall i :: 0 <= i < |b| ==> WellFormed(b[i])
    requires Sources(a) == Sources(b)
    ensures a == b
  {
    forall i | 0 <= i < |a|
      ensures a[i] == b[i]
    {
      assert Sources(a)[i] == Sources(b)[i];
      DeriveSource(a[i]);
      DeriveSource(b[i]);
    }
  }

  /** The cleaned table keeps the input order and never grows, and it contains every valid
      row and no other. */
  lemma CleanKeepsValidRows(files: seq<seq<RawRow>>, x: RawRow)
    ensures IsSubsequence(Sources(Clean(files)), Concat(files))
    ensures |Clean(files)| <= |Concat(files)|
    ensures x in Sources(Clean(files)) <==> x in Concat(files) && IsValid(x)
  {
    SelectIsSubsequence(Concat(files), IsValid);
    if x in Concat(files) && IsValid(x) {
      var i :| 0 <= i < |Concat(files)| && Concat(files)[i] == x;
    }
  }

  /** An extra file holding one invalid row (a zero quantity, an unreadable price, a repeated
      header, ...) leaves the cleaned table unchanged. */
  lemma InvalidRowDropped(files: seq<seq<RawRow>>, x: RawRow)
    requires !IsValid(x)
    ensures Clean(files + [[x]]) == Clean(files)
  {
    ConcatAppend(files, [x]);
    SelectConcat(Concat(files), [x], IsValid);
    assert Select([x], IsValid) == [];
    SameSources(Clean(files + [[x]]), Clean(files));
  }

  /** An extra file holding one valid row appends exactly its record. */
  lemma ValidRowAppended(files: seq<seq<RawRow>>, x: RawRow)
    requires IsValid(x)
    ensures Clean(files + [[x]]) == Clean(files) + [Derive(x)]
  {
    var before, after := Clean(files), Clean(files + [[x]]);
    ConcatAppend(files, [x]);
    SelectConcat(Concat(files), [x], IsValid);
    assert Select([x], IsValid) == [x];
    assert Sources(after) == Sources(before) + [x];
    var longer := before + [Derive(x)];
    SourcesAppend(before, Derive(x));
    AppendWellFormed(before, Derive(x));
    SameSources(after, longer);
  }

  lemma AppendWellFormed(sales: seq<Sale>, s: Sale)
    requires forall i :: 0 <= i < |sales| ==> WellFormed(sales[i])
    requires WellFormed(s)
    ensures forall i :: 0 <= i < |sales + [s]| ==> WellFormed((sales + [s])[i])
  {
  }

  lemma SourcesAppend(sales: seq<Sale>, s: Sale)
    ensures Sources(sales + [s]) == Sources(sales) + [s.Source()]
  {
  }
}
