/** The ordered name/value list behind `URLSearchParams`, as the portal client fills it. */
module FormParams {
  import opened Base

  type Pair = (string, string)

  /** A form-encoded parameter list that grows by `append`. */
  class SearchParams {
    var pairs: seq<Pair>

    constructor ()
      ensures pairs == []
    {
      pairs := [];
    }

    /** `append(name, value)`: adds one pair at the end, keeping duplicates. */
    method Append(name: string, value: string)
      modifies this
      ensures pairs == old(pairs) + [(name, value)]
    {
      pairs := pairs + [(name, value)];
    }
  }

  /** `get(name)`: the value of the first pair with that name. */
  function Get(pairs: seq<Pair>, name: string): (r: Option<string>)
    ensures r.None? <==> forall i :: 0 <= i < |pairs| ==> pairs[i].0 != name
    ensures r.Some? ==> exists i :: 0 <= i < |pairs| && pairs[i] == (name, r.value)
                                  && forall j :: 0 <= j < i ==> pairs[j].0 != name
  {
    if pairs == [] then None
    else if pairs[0].0 == name then Some(pairs[0].1)
    else
      var r := Get(pairs[1..], name);
      assert r.Some? ==> exists i :: 0 <= i < |pairs[1..]| && pairs[1..][i] == (name, r.value)
                                   && (forall j :: 0 <= j < i ==> pairs[1..][j].0 != name)
                                   && pairs[i + 1] == (name, r.value)
                                   && forall j :: 0 <= j < i + 1 ==> pairs[j].0 != name;
      r
  }

  /** A name whose first occurrence is at `i` is read back as the value there. */
  lemma GetAt(pairs: seq<Pair>, i: nat)
    requires i < |pairs|
    requires forall j :: 0 <= j < i ==> pairs[j].0 != pairs[i].0
    ensures Get(pairs, pairs[i].0) == Some(pairs[i].1)
  {
    var r := Get(pairs, pairs[i].0);
    assert r.Some?;
    var k :| 0 <= k < |pairs| && pairs[k] == (pairs[i].0, r.value)
             && forall j :: 0 <= j < k ==> pairs[j].0 != pairs[i].0;
    assert k == i;
  }
}
