/** LdbcSnbBiQuery11UnrelatedReplies: an immutable operation value (country, black list, limit)
    with Java's null-safe equals, its 31-multiplier hashCode, its parameter map and the
    row mapping of its results. Nullable references are Option values. */
module LdbcSnbBiQuery11UnrelatedReplies {
  import opened Wrappers
  import opened JavaInts

  const TYPE: Int32 := 11
  const BLACK_LIST: string := "blackList"
  const COUNTRY: string := "country"
  const LIMIT: string := "limit"

  /** The operation; its accessors country(), blackList() and limit() are the datatype's
      destructors, so they return exactly the constructor's arguments. */
  datatype Query11 = Query11(country: Option<string>, blackList: Option<seq<string>>, limit: Int32)

  /** The `Object` handed to equals: null, a Query11, or an object of another class. */
  datatype JavaObject = Null | Query11Object(query: Query11) | OtherObject(className: string)

  /** One result row (LdbcSnbBiQuery11UnrelatedRepliesResult); the tag is a nullable String. */
  datatype Query11Result = Query11Result(personId: Int64, tag: Option<string>, likeCount: Int32, replyCount: Int32)

  /** A field of the list-of-lists form that the JSON layer reads and writes. */
  datatype Field = NumberField(n: int) | StringField(s: string) | NullField

  /** A value of the parameter map. */
  datatype ParameterValue = ListParameter(list: seq<string>) | StringParameter(s: string) | IntParameter(i: Int32)

  /** Guava's ImmutableMap refuses null values with a NullPointerException. */
  datatype NullPointerException = NullValueForKey(key: string)

  /** The errors a malformed row raises in marshalResult: a missing field, a failing cast, or
      a null number unboxed by `longValue()`/`intValue()`. */
  datatype MarshalError = IndexOutOfBounds(row: nat) | ClassCast(row: nat) | NullPointer(row: nat)

  /** `type()`. */
  function Type(q: Query11): (t: Int32)
    ensures t == 11
  {
    TYPE
  }

  /** `a != null ? a.equals(b) : b == null`, for strings and lists of strings. */
  function NullSafeEquals<T(==)>(a: Option<T>, b: Option<T>): (r: bool)
    ensures r <==> a == b
  {
    match a
    case Some(x) => b.Some? && b.value == x
    case None => b.None?
  }

  /** equals(Object): false for null and for other classes, otherwise field by field. */
  function Equals(q: Query11, o: JavaObject): (r: bool)
    ensures r <==> o.Query11Object? && o.query.limit == q.limit && o.query.country == q.country
                   && o.query.blackList == q.blackList
  {
    match o
    case Null => false
    case OtherObject(_) => false
    case Query11Object(that) =>
      if q.limit != that.limit then false
      else if !NullSafeEquals(q.country, that.country) then false
      else NullSafeEquals(q.blackList, that.blackList)
  }

  lemma EqualsReflexive(q: Query11)
    ensures Equals(q, Query11Object(q))
  {
  }

  lemma EqualsSymmetric(a: Query11, b: Query11)
    ensures Equals(a, Query11Object(b)) == Equals(b, Query11Object(a))
  {
  }

  lemma EqualsTransitive(a: Query11, b: Query11, c: Query11)
    requires Equals(a, Query11Object(b)) && Equals(b, Query11Object(c))
    ensures Equals(a, Query11Object(c))
  {
  }

  /** `String.hashCode()`: h = 31 * h + c over the characters, in `int` arithmetic. */
  function StringHash(s: string): Int32
  {
    if s == [] then 0 else Wrap32(31 * StringHash(s[..|s| - 1]) + s[|s| - 1] as int)
  }

  /** `List.hashCode()`: h = 31 * h + hash(e), starting from 1. */
  function ListHash(l: seq<string>): Int32
  {
    if l == [] then 1 else Wrap32(31 * ListHash(l[..|l| - 1]) + StringHash(l[|l| - 1]))
  }

  /** A nullable field's hash, 0 for null. */
  function CountryHash(country: Option<string>): Int32
  {
    match country
    case Some(s) => StringHash(s)
    case None => 0
  }

  function BlackListHash(blackList: Option<seq<string>>): Int32
  {
    match blackList
    case Some(l) => ListHash(l)
    case None => 0
  }

  /** hashCode(), computed step by step as the source does, each step wrapping to `int`.
      It equals `31 * (31 * h(country) + h(blackList)) + limit` taken modulo 2^32 once:
      wrapping in between loses nothing. */
  function HashCode(q: Query11): (h: Int32)
    ensures h == Wrap32(961 * CountryHash(q.country) + 31 * BlackListHash(q.blackList) + q.limit)
  {
    var result := CountryHash(q.country);
    var result' := Wrap32(31 * result + BlackListHash(q.blackList));
    Wrap32MulAdd(31, 31 * result + BlackListHash(q.blackList), q.limit);
    assert 31 * (31 * result + BlackListHash(q.blackList)) + q.limit
           == 961 * result + 31 * BlackListHash(q.blackList) + q.limit;
    Wrap32(31 * result' + q.limit)
  }

  /** Equal operations have equal hash codes. */
  lemma EqualsImpliesEqualHashCode(a: Query11, b: Query11)
    requires Equals(a, Query11Object(b))
    ensures HashCode(a) == HashCode(b)
  {
  }

  /** parameterMap(): blackList, country and limit under their key constants; a null
      country or black list makes the map builder throw. */
  function ParameterMap(q: Query11): (r: Result<map<string, ParameterValue>, NullPointerException>)
    ensures r.Ok? <==> q.blackList.Some? && q.country.Some?
    ensures q.blackList.None? ==> r == Err(NullValueForKey(BLACK_LIST))
    ensures q.blackList.Some? && q.country.None? ==> r == Err(NullValueForKey(COUNTRY))
    ensures r.Ok? ==> r.value.Keys == {"blackList", "country", "limit"} && |r.value| == 3
    ensures r.Ok? ==> (r.value["blackList"] == ListParameter(q.blackList.value)
                       && r.value["country"] == StringParameter(q.country.value)
                       && r.value["limit"] == IntParameter(q.limit))
  {
    if q.blackList.None? then Err(NullValueForKey(BLACK_LIST))
    else if q.country.None? then Err(NullValueForKey(COUNTRY))
    else Ok(map[BLACK_LIST := ListParameter(q.blackList.value),
                COUNTRY := StringParameter(q.country.value),
                LIMIT := IntParameter(q.limit)])
  }

  /** The four fields serializeResult writes for one result, in order; a null tag is a null field. */
  function ResultFields(r: Query11Result): seq<Field>
  {
    [NumberField(r.personId),
     if r.tag.Some? then StringField(r.tag.value) else NullField,
     NumberField(r.likeCount),
     NumberField(r.replyCount)]
  }

  /** Whether field k (0..3) of a row survives its cast: fields 0, 2 and 3 must be numbers
      (`((Number) f).longValue()` / `intValue()`), field 1 a string or null (`(String) f`). */
  predicate FieldFits(f: Field, k: nat)
  {
    if k == 1 then !f.NumberField? else f.NumberField?
  }

  /** What reading field k of row i raises when it does not fit: null unboxed as a number is
      a NullPointerException, anything else of the wrong type a ClassCastException. */
  function FieldError(f: Field, k: nat, i: nat): MarshalError
  {
    if k != 1 && f.NullField? then NullPointer(i) else ClassCast(i)
  }

  /** marshalResult accepts a row with at least four fields, each fitting its cast. */
  predicate WellFormedRow(row: seq<Field>)
  {
    |row| >= 4 && forall k :: 0 <= k < 4 ==> FieldFits(row[k], k)
  }

  /** The result marshalResult builds from a well-formed row: `longValue()` and `intValue()`
      narrow the numbers to `long` and `int`. */
  function RowResult(row: seq<Field>): Query11Result
    requires WellFormedRow(row)
  {
    assert FieldFits(row[0], 0) && FieldFits(row[2], 2) && FieldFits(row[3], 3);
    Query11Result(Wrap64(row[0].n), if row[1].StringField? then Some(row[1].s) else None,
                  Wrap32(row[2].n), Wrap32(row[3].n))
  }

  /** The index of the first field (0..3) of a row that is missing or does not fit, 4 if none. */
  function FirstBadField(row: seq<Field>, k: nat): (m: nat)
    requires k <= 4
    ensures k <= m <= 4
    ensures forall j :: k <= j < m ==> j < |row| && FieldFits(row[j], j)
    ensures m < 4 ==> m >= |row| || !FieldFits(row[m], m)
    decreases 4 - k
  {
    if k == 4 then 4
    else if k >= |row| || !FieldFits(row[k], k) then k
    else FirstBadField(row, k + 1)
  }

  /** The error marshalResult raises for row i when it is not well formed: reading stops at
      the first field that is missing or does not fit. */
  function RowError(row: seq<Field>, i: nat): (e: MarshalError)
    requires !WellFormedRow(row)
    ensures var m := FirstBadField(row, 0);
            m < 4
            && (e == IndexOutOfBounds(i) <==> m >= |row|)
            && (m < |row| ==> e == FieldError(row[m], m, i))
  {
    var m := FirstBadField(row, 0);
    if m < |row| then FieldError(row[m], m, i) else IndexOutOfBounds(i)
  }

  /** One result's fields, read back, give that result. */
  lemma ResultFieldsRoundTrip(r: Query11Result)
    ensures WellFormedRow(ResultFields(r)) && RowResult(ResultFields(r)) == r
  {
  }

  /** serializeResult, up to the JSON encoding: one four-field row per result, in order. */
  method SerializeResult(results: seq<Query11Result>) returns (rows: seq<seq<Field>>)
    ensures |rows| == |results|
    ensures forall i :: 0 <= i < |results| ==> rows[i] == ResultFields(results[i])
  {
    rows := [];
    for i := 0 to |results|
      invariant |rows| == i
      invariant forall k :: 0 <= k < i ==> rows[k] == ResultFields(results[k])
    {
      var row := results[i];
      var resultFields := [];
      resultFields := resultFields + [NumberField(row.personId)];
      resultFields := resultFields + [if row.tag.Some? then StringField(row.tag.value) else NullField];
      resultFields := resultFields + [NumberField(row.likeCount)];
      resultFields := resultFields + [NumberField(row.replyCount)];
      rows := rows + [resultFields];
    }
  }

  /** marshalResult, from the JSON layer's list of lists on: one result per row, in order,
      or the error of the first malformed row. */
  method MarshalResult(rows: seq<seq<Field>>) returns (r: Result<seq<Query11Result>, MarshalError>)
    ensures r.Ok? <==> forall i :: 0 <= i < |rows| ==> WellFormedRow(rows[i])
    ensures r.Ok? ==> |r.value| == |rows| && forall i :: 0 <= i < |rows| ==> r.value[i] == RowResult(rows[i])
    ensures r.Err? ==> exists i :: 0 <= i < |rows| && !WellFormedRow(rows[i]) && r.error == RowError(rows[i], i)
                                 && forall k :: 0 <= k < i ==> WellFormedRow(rows[k])
  {
    var result := [];
    for i := 0 to |rows|
      invariant |result| == i
      invariant forall k :: 0 <= k < i ==> WellFormedRow(rows[k]) && result[k] == RowResult(rows[k])
    {
      var row := rows[i];
      if !WellFormedRow(row) {
        return Err(RowError(row, i));
      }
      assert FieldFits(row[0], 0) && FieldFits(row[2], 2) && FieldFits(row[3], 3);
      var personId := Wrap64(row[0].n);
      var tag := if row[1].StringField? then Some(row[1].s) else None;
      var likeCount := Wrap32(row[2].n);
      var replyCount := Wrap32(row[3].n);
      result := result + [Query11Result(personId, tag, likeCount, replyCount)];
    }
    return Ok(result);
  }

  /** At the list-of-lists level, marshalling what was serialized gives back the results. */
  method SerializeMarshalRoundTrip(results: seq<Query11Result>) returns (back: Result<seq<Query11Result>, MarshalError>)
    ensures back == Ok(results)
  {
    var rows := SerializeResult(results);
    forall i | 0 <= i < |rows|
      ensures WellFormedRow(rows[i]) && RowResult(rows[i]) == results[i]
    {
      ResultFieldsRoundTrip(results[i]);
    }
    back := MarshalResult(rows);
    assert back.value == results;
  }
}
