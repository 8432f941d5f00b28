/**
 * The import script: clears the `Medicine` collection, maps every CSV row
 * to a document (with defaults for a missing strength, an unreadable unit
 * size and an unreadable price), then inserts the documents in batches of
 * 1000, logging `Imported batch k/total` after each.
 *
 * Reading the file is a parameter: the rows arrive as a sequence, in file order.
 */
module ImportData {
  import opened Wrappers
  import opened JsNumber
  import opened Medicine
  import opened MedicinesRoute

  /** One CSV row as `csv-parser` hands it over; `strength` is `None` when the column is absent. */
  datatype Row = Row(
    medicineName: string,
    categoryName: string,
    slug: string,
    genericName: string,
    strength: Option<string>,
    manufacturerName: string,
    unit: string,
    unitSize: string,
    price: string)

  const BatchSize: nat := 1000

  /** `parseInt(text) || 1`: `NaN` and `0` are false, so both become 1. */
  function UnitSizeOf(text: string): (n: int)
    ensures n != 0
    ensures ParseInt(text).Some? && ParseInt(text).value != 0 ==> n == ParseInt(text).value
    ensures ParseInt(text).None? || ParseInt(text) == Some(0) ==> n == 1
  {
    match ParseInt(text)
    case Some(v) => if v != 0 then v else 1
    case None => 1
  }

  /** `parseFloat(text) || 0`: `NaN` becomes 0. */
  function PriceOf(parseFloat: string -> Num, text: string): (x: real)
    ensures parseFloat(text).Finite? ==> x == parseFloat(text).x
    ensures parseFloat(text).NaN? ==> x == 0.0
  {
    match parseFloat(text)
    case Finite(v) => v
    case NaN => 0.0
  }

  /** The document a row becomes. */
  function ToRecord(row: Row, parseFloat: string -> Num): (r: Record)
    ensures r.unitSize != 0
    ensures r.unitSize == UnitSizeOf(row.unitSize) && r.price == PriceOf(parseFloat, row.price)
    ensures r.strength == (if row.strength.Some? then row.strength.value else "")
    ensures r.medicineName == row.medicineName && r.categoryName == row.categoryName && r.slug == row.slug
    ensures r.genericName == row.genericName && r.manufacturerName == row.manufacturerName && r.unit == row.unit
  {
    Record(row.medicineName, row.categoryName, row.slug, row.genericName,
      OrElse(row.strength, ""), row.manufacturerName, row.unit,
      UnitSizeOf(row.unitSize), PriceOf(parseFloat, row.price))
  }

  /** The row a CSV export of `r` would hold, with `priceText` as the price column. */
  function RowOf(r: Record, priceText: string): Row {
    Row(r.medicineName, r.categoryName, r.slug, r.genericName, Some(r.strength),
      r.manufacturerName, r.unit, IntToString(r.unitSize), priceText)
  }

  /**
   * Every document with a non-zero unit size survives a trip through the
   * CSV unchanged, given a price column that reads back as its price.
   */
  lemma ImportRoundTrip(r: Record, priceText: string, parseFloat: string -> Num)
    requires r.unitSize != 0
    requires parseFloat(priceText) == Finite(r.price)
    ensures ToRecord(RowOf(r, priceText), parseFloat) == r
  {
    ParseIntOfIntToString(r.unitSize);
  }

  /** A unit size of 0 cannot be imported: it reads back as 1. */
  lemma ZeroUnitSizeBecomesOne(r: Record, priceText: string, parseFloat: string -> Num)
    requires r.unitSize == 0
    ensures ToRecord(RowOf(r, priceText), parseFloat).unitSize == 1
  {
    ParseIntOfIntToString(0);
  }

  /** The documents the rows become, in file order. */
  function Mapped(rows: seq<Row>, parseFloat: string -> Num): (docs: seq<Record>)
    ensures |docs| == |rows|
    ensures forall k :: 0 <= k < |rows| ==> docs[k] == ToRecord(rows[k], parseFloat)
  {
    MapRows(rows, row => ToRecord(row, parseFloat))
  }

  /** `f` applied to every row, in order; the last row's document comes last. */
  function MapRows(rows: seq<Row>, f: Row -> Record): (docs: seq<Record>)
    ensures |docs| == |rows|
    ensures forall k :: 0 <= k < |rows| ==> docs[k] == f(rows[k])
  {
    if rows == [] then [] else MapRows(rows[..|rows| - 1], f) + [f(rows[|rows| - 1])]
  }

  /** `medicines.slice(i, i + size)` for `i = 0, size, 2 * size, …` while `i < |s|`. */
  function Batches(s: seq<Record>, size: nat): seq<seq<Record>>
    requires size > 0
    decreases |s|
  {
    if s == [] then []
    else
      var n := Min(size, |s|);
      [s[..n]] + Batches(s[n..], size)
  }

  function Flatten(b: seq<seq<Record>>): seq<Record> {
    if b == [] then [] else b[0] + Flatten(b[1..])
  }

  /** Inserting the batches one after another inserts every document, in order. */
  lemma {:induction false} BatchesCoverInput(s: seq<Record>, size: nat)
    requires size > 0
    ensures Flatten(Batches(s, size)) == s
    decreases |s|
  {
    if s != [] {
      var n := Min(size, |s|);
      BatchesCoverInput(s[n..], size);
      assert Batches(s, size)[1..] == Batches(s[n..], size);
      assert s == s[..n] + s[n..];
    }
  }

  /** Every batch holds between 1 and `size` documents, and all but the last exactly `size`. */
  lemma {:induction false} BatchSizes(s: seq<Record>, size: nat)
    requires size > 0
    ensures forall k :: 0 <= k < |Batches(s, size)| ==> 0 < |Batches(s, size)[k]| <= size
    ensures forall k :: 0 <= k < |Batches(s, size)| - 1 ==> |Batches(s, size)[k]| == size
    decreases |s|
  {
    if s != [] {
      var n := Min(size, |s|);
      BatchSizes(s[n..], size);
      var b := Batches(s, size);
      assert forall k :: 1 <= k < |b| ==> b[k] == Batches(s[n..], size)[k - 1];
      if |s| > size {
        assert s[n..] != [];
      }
    }
  }

  /** There are `Math.ceil(|s| / size)` batches: the total in the progress message. */
  lemma {:induction false} BatchCount(s: seq<Record>, size: nat)
    requires size > 0
    ensures |Batches(s, size)| == CeilDiv(|s|, size)
    decreases |s|
  {
    if s == [] {
      CeilDivUnique(0, size, 0);
    } else {
      var n := Min(size, |s|);
      BatchCount(s[n..], size);
      var c := CeilDiv(|s| - n, size);
      if |s| > size {
        assert (c + 1 - 1) * size < |s| <= (c + 1) * size;
        CeilDivUnique(|s|, size, c + 1);
      } else {
        CeilDivUnique(|s|, size, 1);
      }
    }
  }

  /** The collection, reduced to the sequence of its documents in insertion order. */
  class Store {
    var docs: seq<Record>

    constructor (initial: seq<Record>)
      ensures docs == initial
    {
      docs := initial;
    }

    /** `Medicine.deleteMany({})`. */
    method DeleteAll()
      modifies this
      ensures docs == []
    {
      docs := [];
    }

    /** `Medicine.insertMany(batch)`. */
    method InsertMany(batch: seq<Record>)
      modifies this
      ensures docs == old(docs) + batch
    {
      docs := docs + batch;
    }
  }

  /** One progress line: `Imported batch {number}/{total}`. */
  datatype Progress = Progress(number: int, total: int)

  /** The progress lines after `count` batches out of `total`. */
  function ProgressLines(count: nat, total: int): (log: seq<Progress>)
    ensures |log| == count
    ensures forall k :: 0 <= k < count ==> log[k] == Progress(k + 1, total)
  {
    if count == 0 then [] else ProgressLines(count - 1, total) + [Progress(count, total)]
  }

  /** The `'data'` handler over the whole file: one document per row, in file order. */
  method ReadRows(rows: seq<Row>, parseFloat: string -> Num) returns (medicines: seq<Record>)
    ensures medicines == Mapped(rows, parseFloat)
  {
    medicines := [];
    var j := 0;
    while j < |rows|
      invariant 0 <= j <= |rows|
      invariant medicines == Mapped(rows[..j], parseFloat)
    {
      assert rows[..j + 1][..j] == rows[..j];
      medicines := medicines + [ToRecord(rows[j], parseFloat)];
      j := j + 1;
    }
    assert rows[..j] == rows;
  }

  /**
   * The `'end'` handler: `medicines.slice(i, i + 1000)` inserted for
   * `i = 0, 1000, …`, each followed by its progress line.
   */
  method InsertBatches(store: Store, medicines: seq<Record>) returns (batches: seq<seq<Record>>, log: seq<Progress>)
    modifies store
    ensures store.docs == old(store.docs) + medicines
    ensures batches == Batches(medicines, BatchSize)
    ensures |log| == |batches| == CeilDiv(|medicines|, BatchSize)
    ensures forall k :: 0 <= k < |log| ==> log[k] == Progress(k + 1, |batches|)
  {
    var n := |medicines|;
    ghost var before := store.docs;
    ghost var all := Batches(medicines, BatchSize);
    BatchCount(medicines, BatchSize);
    batches, log := [], [];
    var i := 0;
    while i < n
      invariant i == BatchSize * |batches|
      invariant batches + Batches(medicines[Min(i, n)..], BatchSize) == all
      invariant store.docs == before + medicines[..Min(i, n)]
      invariant log == ProgressLines(|batches|, CeilDiv(n, BatchSize))
      decreases n - i
    {
      var batch := medicines[i..Min(i + BatchSize, n)];
      BatchLoopStep(medicines, batches, i);
      store.InsertMany(batch);
      BatchNumber(|batches|);
      batches := batches + [batch];
      log := log + [Progress(i / BatchSize + 1, CeilDiv(n, BatchSize))];
      i := i + BatchSize;
    }
    assert medicines[n..] == [];
  }

  /** The offset of batch `b` divided by the batch size gives back `b`. */
  lemma BatchNumber(b: nat)
    ensures (BatchSize * b) / BatchSize == b
  {
  }

  /** The batches from `i` on: the slice at `i`, then the batches after it. */
  lemma BatchStep(s: seq<Record>, i: nat)
    requires i < |s|
    ensures Batches(s[i..], BatchSize) == [s[i..Min(i + BatchSize, |s|)]] + Batches(s[Min(i + BatchSize, |s|)..], BatchSize)
  {
    assert s[i..][Min(BatchSize, |s| - i)..] == s[Min(i + BatchSize, |s|)..];
    assert s[i..][..Min(BatchSize, |s| - i)] == s[i..Min(i + BatchSize, |s|)];
  }

  /** One iteration of the batch loop keeps the batches sent so far a prefix of all of them. */
  lemma BatchLoopStep(s: seq<Record>, sent: seq<seq<Record>>, i: nat)
    requires i < |s|
    requires sent + Batches(s[i..], BatchSize) == Batches(s, BatchSize)
    ensures (sent + [s[i..Min(i + BatchSize, |s|)]]) + Batches(s[Min(i + BatchSize, |s|)..], BatchSize) == Batches(s, BatchSize)
    ensures s[..i] + s[i..Min(i + BatchSize, |s|)] == s[..Min(i + BatchSize, |s|)]
  {
    BatchStep(s, i);
    assert (sent + [s[i..Min(i + BatchSize, |s|)]]) + Batches(s[Min(i + BatchSize, |s|)..], BatchSize)
        == sent + ([s[i..Min(i + BatchSize, |s|)]] + Batches(s[Min(i + BatchSize, |s|)..], BatchSize));
  }

  /**
   * The whole import: the collection is cleared, then ends up holding exactly
   * the mapped rows, inserted as `Batches(…, 1000)`; the k-th progress line
   * reads `k + 1` out of the number of batches.
   */
  method Import(store: Store, rows: seq<Row>, parseFloat: string -> Num) returns (batches: seq<seq<Record>>, log: seq<Progress>)
    modifies store
    ensures store.docs == Mapped(rows, parseFloat)
    ensures batches == Batches(Mapped(rows, parseFloat), BatchSize)
    ensures |log| == |batches| == CeilDiv(|rows|, BatchSize)
    ensures forall k :: 0 <= k < |log| ==> log[k] == Progress(k + 1, |batches|)
  {
    store.DeleteAll();
    var medicines := ReadRows(rows, parseFloat);
    batches, log := InsertBatches(store, medicines);
  }
}
