/** Neo4jClient.asDelimitedString: the one piece of the Neo4j binding that is not network I/O.
    It appends `prefix + s + ","` for every string to a builder, then drops the last character. */
module Neo4jClient {
  import opened Wrappers

  /** `String.substring(0, end)` with `end < 0`, as thrown for an empty input. */
  datatype StringIndexOutOfBounds = StringIndexOutOfBounds(beginIndex: int, endIndex: int, length: nat)

  /** What the builder holds after the loop has visited `strings`. */
  function Appended(strings: seq<string>, prefix: string): string
  {
    if strings == [] then ""
    else Appended(strings[..|strings| - 1], prefix) + prefix + strings[|strings| - 1] + ","
  }

  /** The intended text: each string behind the prefix, separated by single commas. */
  function Joined(strings: seq<string>, prefix: string): string
    requires strings != []
  {
    if |strings| == 1 then prefix + strings[0]
    else prefix + strings[0] + "," + Joined(strings[1..], prefix)
  }

  /** Σ (|prefix| + |s|) over the strings. */
  function TotalLength(strings: seq<string>, prefix: string): nat
  {
    if strings == [] then 0 else |prefix| + |strings[0]| + TotalLength(strings[1..], prefix)
  }

  /** Where the i-th `prefix + s` starts in the joined text. */
  function Offset(strings: seq<string>, prefix: string, i: nat): nat
    requires i <= |strings|
  {
    if i == 0 then 0 else |prefix| + |strings[0]| + 1 + Offset(strings[1..], prefix, i - 1)
  }

  /** The builder grows at the front the same way: visiting `s` first contributes its piece first. */
  lemma {:induction false} AppendedCons(s: string, rest: seq<string>, prefix: string)
    ensures Appended([s] + rest, prefix) == prefix + s + "," + Appended(rest, prefix)
    decreases |rest|
  {
    if rest == [] {
      assert ([s] + rest)[..0] == [];
    } else {
      var all := [s] + rest;
      var init := rest[..|rest| - 1];
      assert all[..|all| - 1] == [s] + init;
      assert all[|all| - 1] == rest[|rest| - 1];
      AppendedCons(s, init, prefix);
    }
  }

  /** The builder's text is the joined text followed by one trailing comma. */
  lemma {:induction false} AppendedIsJoinedComma(strings: seq<string>, prefix: string)
    requires strings != []
    ensures Appended(strings, prefix) == Joined(strings, prefix) + ","
    decreases |strings|
  {
    assert strings == [strings[0]] + strings[1..];
    AppendedCons(strings[0], strings[1..], prefix);
    if |strings| == 1 {
      assert strings[1..] == [];
    } else {
      AppendedIsJoinedComma(strings[1..], prefix);
    }
  }

  /** Models asDelimitedString: an empty input fails in `substring(0, -1)`; any other input
      yields the joined text with no trailing comma. */
  method AsDelimitedString(strings: seq<string>, prefix: string) returns (r: Result<string, StringIndexOutOfBounds>)
    ensures strings == [] <==> r.Err?
    ensures strings == [] ==> r == Err(StringIndexOutOfBounds(0, -1, 0))
    ensures strings != [] ==> r == Ok(Joined(strings, prefix))
  {
    var sb := "";
    for i := 0 to |strings|
      invariant sb == Appended(strings[..i], prefix)
    {
      assert strings[..i + 1][..i] == strings[..i];
      sb := sb + prefix;
      sb := sb + strings[i];
      sb := sb + ",";
    }
    assert strings[..|strings|] == strings;
    if |sb| - 1 < 0 {
      return Err(StringIndexOutOfBounds(0, |sb| - 1, |sb|));
    }
    assert strings != [];
    AppendedIsJoinedComma(strings, prefix);
    return Ok(sb[..|sb| - 1]);
  }

  /** A single string comes out as exactly `prefix + s`. */
  lemma SingleElement(s: string, prefix: string)
    ensures Joined([s], prefix) == prefix + s
  {
  }

  /** The joined text has length Σ(|prefix| + |s|) + n - 1: one comma between neighbours. */
  lemma {:induction false} JoinedLength(strings: seq<string>, prefix: string)
    requires strings != []
    ensures |Joined(strings, prefix)| == TotalLength(strings, prefix) + |strings| - 1
    decreases |strings|
  {
    if |strings| > 1 {
      JoinedLength(strings[1..], prefix);
    } else {
      assert strings[1..] == [];
    }
  }

  /** The i-th string appears, behind the prefix, at its offset: the elements keep their order. */
  lemma {:induction false} JoinedElementAt(strings: seq<string>, prefix: string, i: nat)
    requires i < |strings|
    ensures Offset(strings, prefix, i) + |prefix| + |strings[i]| <= |Joined(strings, prefix)|
    ensures Joined(strings, prefix)[Offset(strings, prefix, i) .. Offset(strings, prefix, i) + |prefix| + |strings[i]|]
            == prefix + strings[i]
    decreases i
  {
    var j := Joined(strings, prefix);
    var head := prefix + strings[0];
    if i == 0 {
      assert j[..|head|] == head;
    } else {
      var tail := Joined(strings[1..], prefix);
      JoinedElementAt(strings[1..], prefix, i - 1);
      var o := Offset(strings[1..], prefix, i - 1);
      var n := |prefix| + |strings[i]|;
      assert j == head + "," + tail;
      assert j[|head| + 1 + o .. |head| + 1 + o + n] == tail[o .. o + n];
    }
  }
}
