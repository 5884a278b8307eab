/**
  The helpers the registry takes from the `coutils` crate, whose source is
  not part of this model, written as the behaviour the registry relies on.
  `has_item(v, x)` is `x in v` and `has_index(v, i)` is `i < |v|`; both are
  used inline. `clean_split(name, "")[1]` is taken to be the first
  character of `name`, `name[0]`, which exists only for a non-empty name.
 */
module Coutils {

  datatype Option<T> = None | Some(value: T)

  /**
    `get_index`, as assumed of the crate: the position of the first
    occurrence of `x` in `v`, or `None` when `x` does not occur.
   */
  function GetIndex<T(==)>(v: seq<T>, x: T): (r: Option<nat>)
    ensures r.None? <==> x !in v
    ensures r.Some? ==> r.value < |v| && v[r.value] == x && x !in v[..r.value]
  {
    if |v| == 0 then None
    else if v[0] == x then Some(0)
    else
      match GetIndex(v[1..], x)
      case None => None
      case Some(i) =>
        assert v[1..][..i] == v[1..i + 1];
        assert v[..i + 1] == [v[0]] + v[1..i + 1];
        Some(i + 1)
  }

  /** Any position holding `x` that is preceded by no other `x` is the one `GetIndex` finds. */
  lemma GetIndexIsFirst<T>(v: seq<T>, x: T, i: nat)
    requires i < |v| && v[i] == x && x !in v[..i]
    ensures GetIndex(v, x) == Some(i)
  {
    var j := GetIndex(v, x).value;
    assert forall k :: 0 <= k < i ==> v[..i][k] == v[k];
    assert forall k :: 0 <= k < j ==> v[..j][k] == v[k];
  }
}
