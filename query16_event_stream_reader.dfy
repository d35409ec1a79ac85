/** Query16EventStreamReader: decodes one parameter row of BI query 16
    (person|tagClass|country|minPathDistance|maxPathDistance) column by column from a
    CharSeeker, and turns the decoded parameters into the query operation. */
module Query16EventStreamReader {
  import opened Wrappers
  import opened JavaInts

  /** The typed extractors the CharSeeker applies to a found column (`long_()`, `int_()`);
      `string()` yields the column's text itself. */
  datatype Extractors = Extractors(long_: string -> Int64, int_: string -> Int32)

  /** An element of the `Object[]` the decoder returns. */
  datatype Parameter = LongParameter(l: Int64) | StringParameter(s: string) | IntParameter(i: Int32)

  datatype GeneratorException = GeneratorException(message: string)

  /** What the casts of operationFromParameters raise on a short or mistyped array. */
  datatype CastError = ArrayIndexOutOfBounds(index: nat) | ClassCast(index: nat)

  /** The operation built by operationFromParameters (LdbcSnbBiQuery16ExpertsInSocialCircle),
      its fields in constructor order. */
  datatype Query16 = Query16(person: Int64, tagClass: string, country: string,
                             minPathDistance: Int32, maxPathDistance: Int32, limit: Int32)

  /** The message of the GeneratorException raised when column k (1..4) is missing. */
  function MissingColumnMessage(k: nat): string
    requires 1 <= k <= 4
  {
    if k == 1 then "Error retrieving tag class"
    else if k == 2 then "Error retrieving country name"
    else if k == 3 then "Error retrieving min path distance"
    else "Error retrieving max path distance"
  }

  /** What the seek at position k finds: the column's text, or nothing (end of data). */
  function ColumnAt(columns: seq<Option<string>>, k: nat): Option<string>
  {
    if k < |columns| then columns[k] else None
  }

  /** The j-th of the columns read from position `from`. */
  function Column(columns: seq<Option<string>>, from: nat, j: nat): Option<string>
  {
    ColumnAt(columns, from + j)
  }

  /** A CharSeeker over one input, with its Mark: each seek moves to the next column and,
      when it finds one, leaves that column's text at the mark. */
  class CharSeeker {
    const columns: seq<Option<string>>
    var seeks: nat
    var mark: string

    constructor(columns: seq<Option<string>>)
      ensures this.columns == columns && seeks == 0 && mark == ""
    {
      this.columns := columns;
      seeks := 0;
      mark := "";
    }

    method Seek() returns (found: bool)
      modifies this
      ensures seeks == old(seeks) + 1
      ensures found == ColumnAt(columns, old(seeks)).Some?
      ensures found ==> mark == ColumnAt(columns, old(seeks)).value
      ensures !found ==> mark == old(mark)
    {
      var c := ColumnAt(columns, seeks);
      found := c.Some?;
      if found {
        mark := c.value;
      }
      seeks := seeks + 1;
    }
  }

  /** `columnCount()`. */
  function ColumnCount(): (n: nat)
    ensures n == 5
  {
    5
  }

  /** The index (0..4) of the first of the five columns from `from` that a seek does not
      find, or 5 when all five are there. */
  function FirstMissing(columns: seq<Option<string>>, from: nat, k: nat): (m: nat)
    requires k <= 5
    ensures k <= m <= 5
    ensures forall j :: k <= j < m ==> Column(columns, from, j).Some?
    ensures m < 5 ==> Column(columns, from, m).None?
    decreases 5 - k
  {
    if k == 5 then 5
    else if Column(columns, from, k).None? then k
    else FirstMissing(columns, from, k + 1)
  }

  /** What decodeEvent returns (None for Java's null, meaning end of input) or raises,
      reading the five columns from position `from`. */
  function Decode(columns: seq<Option<string>>, from: nat, extractors: Extractors, defaultLimit: Int32)
    : (r: Result<Option<seq<Parameter>>, GeneratorException>)
    ensures r == Ok(None) <==> Column(columns, from, 0).None?
    ensures r.Ok? && r.value.Some? ==> |r.value.value| == 6 && r.value.value[5] == IntParameter(defaultLimit)
    ensures r.Ok? && r.value.Some? ==> forall k :: 0 <= k < 5 ==> Column(columns, from, k).Some?
  {
    var c := (k: nat) => Column(columns, from, k);
    if c(0).None? then Ok(None)
    else if c(1).None? then Err(GeneratorException(MissingColumnMessage(1)))
    else if c(2).None? then Err(GeneratorException(MissingColumnMessage(2)))
    else if c(3).None? then Err(GeneratorException(MissingColumnMessage(3)))
    else if c(4).None? then Err(GeneratorException(MissingColumnMessage(4)))
    else Ok(Some([LongParameter(extractors.long_(c(0).value)),
                  StringParameter(c(1).value),
                  StringParameter(c(2).value),
                  IntParameter(extractors.int_(c(3).value)),
                  IntParameter(extractors.int_(c(4).value)),
                  IntParameter(defaultLimit)]))
  }

  /** How many seeks decodeEvent makes: up to and including the first failing one. */
  function SeeksUsed(columns: seq<Option<string>>, from: nat): nat
  {
    var m := FirstMissing(columns, from, 0);
    if m == 5 then 5 else m + 1
  }

  /** The anonymous decoder's decodeEvent: five seeks in column order, each column
      extracted right after its seek; `defaultLimit` is the query's DEFAULT_LIMIT. */
  method DecodeEvent(charSeeker: CharSeeker, extractors: Extractors, defaultLimit: Int32)
    returns (r: Result<Option<seq<Parameter>>, GeneratorException>)
    modifies charSeeker
    ensures r == Decode(charSeeker.columns, old(charSeeker.seeks), extractors, defaultLimit)
    ensures charSeeker.seeks == old(charSeeker.seeks) + SeeksUsed(charSeeker.columns, old(charSeeker.seeks))
  {
    ghost var from := charSeeker.seeks;
    ghost var cols := charSeeker.columns;
    assert FirstMissing(cols, from, 0) == 0 || Column(cols, from, 0).Some?;
    var found := charSeeker.Seek();
    if !found {
      return Ok(None);
    }
    var person := extractors.long_(charSeeker.mark);

    assert FirstMissing(cols, from, 0) == FirstMissing(cols, from, 1);
    found := charSeeker.Seek();
    if !found {
      return Err(GeneratorException("Error retrieving tag class"));
    }
    var tagClass := charSeeker.mark;

    assert FirstMissing(cols, from, 1) == FirstMissing(cols, from, 2);
    found := charSeeker.Seek();
    if !found {
      return Err(GeneratorException("Error retrieving country name"));
    }
    var country := charSeeker.mark;

    assert FirstMissing(cols, from, 2) == FirstMissing(cols, from, 3);
    found := charSeeker.Seek();
    if !found {
      return Err(GeneratorException("Error retrieving min path distance"));
    }
    var minPathDistance := extractors.int_(charSeeker.mark);

    assert FirstMissing(cols, from, 3) == FirstMissing(cols, from, 4);
    found := charSeeker.Seek();
    if !found {
      return Err(GeneratorException("Error retrieving max path distance"));
    }
    var maxPathDistance := extractors.int_(charSeeker.mark);

    r := Ok(Some([LongParameter(person), StringParameter(tagClass), StringParameter(country),
                  IntParameter(minPathDistance), IntParameter(maxPathDistance), IntParameter(defaultLimit)]));
  }

  /** The decoder's outcome is decided by the first missing column: none at all means end
      of input, a later one names that column, and five present columns decode into the six
      parameters, the last being the default limit. */
  lemma DecodeByFirstMissing(columns: seq<Option<string>>, from: nat, extractors: Extractors, defaultLimit: Int32)
    ensures var m := FirstMissing(columns, from, 0);
            var r := Decode(columns, from, extractors, defaultLimit);
            && (m == 0 <==> r == Ok(None))
            && (1 <= m <= 4 <==> r.Err?)
            && (1 <= m <= 4 ==> r == Err(GeneratorException(MissingColumnMessage(m))))
            && (m == 5 <==> (r.Ok? && r.value.Some?))
            && (m == 5 ==> |r.value.value| == 6 && r.value.value[5] == IntParameter(defaultLimit))
  {
    var m := FirstMissing(columns, from, 0);
    if m > 0 { assert Column(columns, from, 0).Some?; }
    if m > 1 { assert Column(columns, from, 1).Some?; }
    if m > 2 { assert Column(columns, from, 2).Some?; }
    if m > 3 { assert Column(columns, from, 3).Some?; }
    if m > 4 { assert Column(columns, from, 4).Some?; }
  }

  /** A successful decode makes exactly columnCount() seeks, and no decode makes more; the
      only failure that also makes all of them is a missing fifth column. */
  lemma SeeksOnSuccess(columns: seq<Option<string>>, from: nat, extractors: Extractors, defaultLimit: Int32)
    ensures Decode(columns, from, extractors, defaultLimit).Ok?
            && Decode(columns, from, extractors, defaultLimit).value.Some?
            ==> SeeksUsed(columns, from) == ColumnCount()
    ensures SeeksUsed(columns, from) <= ColumnCount()
    ensures SeeksUsed(columns, from) == ColumnCount()
            <==> (Decode(columns, from, extractors, defaultLimit).Ok? && Decode(columns, from, extractors, defaultLimit).value.Some?)
                 || Decode(columns, from, extractors, defaultLimit) == Err(GeneratorException(MissingColumnMessage(4)))
  {
    DecodeByFirstMissing(columns, from, extractors, defaultLimit);
  }

  /** Whether parameter k (0..5) has the type its cast in operationFromParameters expects:
      `long`, `String`, `String`, then three `int`s. */
  predicate ParameterFits(p: Parameter, k: nat)
  {
    if k == 0 then p.LongParameter? else if k <= 2 then p.StringParameter? else p.IntParameter?
  }

  /** operationFromParameters: casts `parameters[0..5]`, in that order, to the constructor's
      argument types; the first short index or mistyped element raises. */
  function OperationFromParameters(parameters: seq<Parameter>): (r: Result<Query16, CastError>)
    ensures r.Ok? <==> |parameters| >= 6 && forall k :: 0 <= k < 6 ==> ParameterFits(parameters[k], k)
    ensures r.Err? ==> var k := r.error.index;
            k < 6
            && (forall j :: 0 <= j < k ==> j < |parameters| && ParameterFits(parameters[j], j))
            && (r.error.ArrayIndexOutOfBounds? <==> k >= |parameters|)
            && (r.error.ClassCast? ==> !ParameterFits(parameters[k], k))
    ensures r.Ok? ==> r.value.person == parameters[0].l && r.value.tagClass == parameters[1].s
                      && r.value.country == parameters[2].s && r.value.minPathDistance == parameters[3].i
                      && r.value.maxPathDistance == parameters[4].i && r.value.limit == parameters[5].i
  {
    if |parameters| < 1 then Err(ArrayIndexOutOfBounds(0))
    else if !parameters[0].LongParameter? then Err(ClassCast(0))
    else if |parameters| < 2 then Err(ArrayIndexOutOfBounds(1))
    else if !parameters[1].StringParameter? then Err(ClassCast(1))
    else if |parameters| < 3 then Err(ArrayIndexOutOfBounds(2))
    else if !parameters[2].StringParameter? then Err(ClassCast(2))
    else if |parameters| < 4 then Err(ArrayIndexOutOfBounds(3))
    else if !parameters[3].IntParameter? then Err(ClassCast(3))
    else if |parameters| < 5 then Err(ArrayIndexOutOfBounds(4))
    else if !parameters[4].IntParameter? then Err(ClassCast(4))
    else if |parameters| < 6 then Err(ArrayIndexOutOfBounds(5))
    else if !parameters[5].IntParameter? then Err(ClassCast(5))
    else Ok(Query16(parameters[0].l, parameters[1].s, parameters[2].s,
                    parameters[3].i, parameters[4].i, parameters[5].i))
  }

  /** What the decoder produces, operationFromParameters accepts: the operation carries the
      five columns, extracted, in order, and the default limit. */
  lemma DecodedParametersMakeOperation(columns: seq<Option<string>>, from: nat, extractors: Extractors, defaultLimit: Int32)
    requires Decode(columns, from, extractors, defaultLimit).Ok?
    requires Decode(columns, from, extractors, defaultLimit).value.Some?
    ensures forall k :: 0 <= k < 5 ==> Column(columns, from, k).Some?
    ensures OperationFromParameters(Decode(columns, from, extractors, defaultLimit).value.value)
            == Ok(Query16(extractors.long_(Column(columns, from, 0).value),
                          Column(columns, from, 1).value,
                          Column(columns, from, 2).value,
                          extractors.int_(Column(columns, from, 3).value),
                          extractors.int_(Column(columns, from, 4).value),
                          defaultLimit))
  {
    DecodeByFirstMissing(columns, from, extractors, defaultLimit);
  }
}
