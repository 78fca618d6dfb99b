/**
 * Lookup of an enumerator by its numeric code.
 *
 * Every enumeration of the USB request vocabulary assigns a code to each
 * enumerator; decoding a received code searches the table that lists the
 * enumeration for an enumerator carrying that code.
 */
module CodeTables {
  import opened Wrappers

  /**
   * The first enumerator of `table` whose code is `code`, or None when no
   * enumerator of the table carries it.
   */
  function Find<T, C(==)>(table: seq<T>, codeOf: T -> C, code: C): (r: Option<T>)
    ensures r.Some? ==> r.value in table && codeOf(r.value) == code
    ensures r.None? <==> forall x :: x in table ==> codeOf(x) != code
    ensures r.Some? ==> exists i :: 0 <= i < |table| && table[i] == r.value &&
                                   forall j :: 0 <= j < i ==> codeOf(table[j]) != code
  {
    if |table| == 0 then None
    else if codeOf(table[0]) == code then Some(table[0])
    else
      assert forall x :: x in table ==> x == table[0] || x in table[1..];
      var r := Find(table[1..], codeOf, code);
      assert r.Some? ==> exists i :: 0 <= i < |table| && table[i] == r.value &&
                                     forall j :: 0 <= j < i ==> codeOf(table[j]) != code by {
        if r.Some? {
          var i :| 0 <= i < |table| - 1 && table[1..][i] == r.value &&
                   forall j :: 0 <= j < i ==> codeOf(table[1..][j]) != code;
          forall j | 0 <= j < i + 1 ensures codeOf(table[j]) != code {
            if j > 0 { assert table[j] == table[1..][j - 1]; }
          }
          assert table[i + 1] == r.value;
        }
      }
      r
  }
}
