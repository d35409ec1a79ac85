/** CsvEventStreamReader_NEW: an iterator of events over an iterator of CSV rows. Each row's
    decoder is looked up in a map under a key the key extractor takes from that row. */
module CsvEventStreamReader {
  import opened Wrappers

  type Row = seq<string>

  /** The NoSuchElementException that next() raises: no decoder for the row's key (the
      message names the row and the key), or no row left in the underlying iterator. */
  datatype NextError<K> = NoDecoderFound(row: Row, decoderKey: K) | NoMoreRows

  datatype UnsupportedOperationException = UnsupportedOperationException(message: string)

  /** next() applied to one row, after it has been taken from the underlying iterator. */
  function DecodeRow<E, K(==)>(decoders: map<K, Row -> E>, decoderKeyExtractor: Row -> K, row: Row)
    : (r: Result<E, NextError<K>>)
    ensures r.Ok? <==> decoderKeyExtractor(row) in decoders
    ensures r.Ok? ==> r.value == decoders[decoderKeyExtractor(row)](row)
    ensures r.Err? ==> r.error == NoDecoderFound(row, decoderKeyExtractor(row))
  {
    var decoderKey := decoderKeyExtractor(row);
    if decoderKey !in decoders then Err(NoDecoderFound(row, decoderKey))
    else Ok(decoders[decoderKey](row))
  }

  class CsvEventStreamReader<E, K(==)> {
    /** The rows the underlying csvRowIterator has still to return, in order. */
    var rows: seq<Row>
    const decoders: map<K, Row -> E>
    const decoderKeyExtractor: Row -> K

    constructor(csvRows: seq<Row>, decoders: map<K, Row -> E>, decoderKeyExtractor: Row -> K)
      ensures rows == csvRows && this.decoders == decoders && this.decoderKeyExtractor == decoderKeyExtractor
    {
      rows := csvRows;
      this.decoders := decoders;
      this.decoderKeyExtractor := decoderKeyExtractor;
    }

    /** hasNext(): exactly when the underlying iterator has a next row. */
    function HasNext(): (b: bool)
      reads this
      ensures b <==> |rows| > 0
    {
      rows != []
    }

    /** next(): consumes one row, then decodes it with the decoder registered for its key;
        the row stays consumed when no decoder is found. */
    method Next() returns (r: Result<E, NextError<K>>)
      modifies this
      ensures old(rows) == [] ==> rows == [] && r == Err(NoMoreRows)
      ensures old(rows) != [] ==> rows == old(rows)[1..]
      ensures old(rows) != [] ==> r == DecodeRow(decoders, decoderKeyExtractor, old(rows)[0])
    {
      if rows == [] {
        return Err(NoMoreRows);
      }
      var csvRow := rows[0];
      rows := rows[1..];
      var decoderKey := decoderKeyExtractor(csvRow);
      if decoderKey !in decoders {
        return Err(NoDecoderFound(csvRow, decoderKey));
      }
      var decoder := decoders[decoderKey];
      return Ok(decoder(csvRow));
    }

    /** remove(): never supported. */
    method Remove() returns (r: Outcome<UnsupportedOperationException>)
      ensures r.Fail?
    {
      return Fail(UnsupportedOperationException("CsvEventStreamReader_NEW does not support remove()"));
    }
  }

  /** What a consumer calling next() while hasNext() holds obtains: the events in row order,
      up to the first row without a decoder, and that row's error. */
  function Drain<E, K(==)>(decoders: map<K, Row -> E>, decoderKeyExtractor: Row -> K, rows: seq<Row>)
    : (seq<E>, Option<NextError<K>>)
  {
    if rows == [] then ([], None)
    else match DecodeRow(decoders, decoderKeyExtractor, rows[0])
      case Err(e) => ([], Some(e))
      case Ok(event) =>
        var (events, error) := Drain(decoders, decoderKeyExtractor, rows[1..]);
        ([event] + events, error)
  }

  /** When every row's key has a decoder, draining yields exactly one event per row, each the
      decoding of that row, in row order; and only then does it end without an error. */
  lemma {:induction false} DrainDecodesEveryRow<E, K>(decoders: map<K, Row -> E>, decoderKeyExtractor: Row -> K, rows: seq<Row>)
    ensures Drain(decoders, decoderKeyExtractor, rows).1.None?
            <==> forall i :: 0 <= i < |rows| ==> decoderKeyExtractor(rows[i]) in decoders
    ensures Drain(decoders, decoderKeyExtractor, rows).1.None? ==>
            var events := Drain(decoders, decoderKeyExtractor, rows).0;
            |events| == |rows| && forall i :: 0 <= i < |rows| ==> events[i] == decoders[decoderKeyExtractor(rows[i])](rows[i])
    decreases |rows|
  {
    if rows != [] {
      DrainDecodesEveryRow(decoders, decoderKeyExtractor, rows[1..]);
      var (events, error) := Drain(decoders, decoderKeyExtractor, rows[1..]);
      if decoderKeyExtractor(rows[0]) in decoders {
        assert forall i :: 1 <= i < |rows| ==> rows[i] == rows[1..][i - 1];
      }
    }
  }

  /** When some row has no decoder, draining stops there: it reports the first such row with
      its key, after the events of all earlier rows. */
  lemma {:induction false} DrainStopsAtFirstUndecodableRow<E, K>(decoders: map<K, Row -> E>, decoderKeyExtractor: Row -> K,
                                                                    rows: seq<Row>, i: nat)
    requires i < |rows| && decoderKeyExtractor(rows[i]) !in decoders
    requires forall j :: 0 <= j < i ==> decoderKeyExtractor(rows[j]) in decoders
    ensures Drain(decoders, decoderKeyExtractor, rows).1 == Some(NoDecoderFound(rows[i], decoderKeyExtractor(rows[i])))
    ensures |Drain(decoders, decoderKeyExtractor, rows).0| == i
    ensures forall j :: 0 <= j < i ==> Drain(decoders, decoderKeyExtractor, rows).0[j]
                                       == decoders[decoderKeyExtractor(rows[j])](rows[j])
    decreases i
  {
    if i > 0 {
      assert forall j :: 0 <= j < i - 1 ==> rows[1..][j] == rows[j + 1];
      DrainStopsAtFirstUndecodableRow(decoders, decoderKeyExtractor, rows[1..], i - 1);
    }
  }
}
