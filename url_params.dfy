/**
 * `URLSearchParams` at the key/value level: an ordered list of name/value pairs.
 * Percent-encoding of the serialized form is not part of this model.
 */
module UrlParams {
  import opened Wrappers

  type Query = seq<(string, string)>

  predicate HasKey(q: Query, key: string)
  {
    q != [] && (q[0].0 == key || HasKey(q[1..], key))
  }

  /** `params.get(key)`: the value of the first pair with that name, `null` if none. */
  function Get(q: Query, key: string): (r: Option<string>)
    ensures r.Some? <==> HasKey(q, key)
  {
    if q == [] then None else if q[0].0 == key then Some(q[0].1) else Get(q[1..], key)
  }

  /** The pairs whose name is not `key`. */
  function RemoveKey(q: Query, key: string): (r: Query)
    ensures forall k :: Get(r, k) == if k == key then None else Get(q, k)
    ensures forall k :: HasKey(r, k) <==> k != key && HasKey(q, k)
  {
    if q == [] then []
    else if q[0].0 == key then RemoveKey(q[1..], key)
    else [q[0]] + RemoveKey(q[1..], key)
  }

  function ReplaceFirst(q: Query, key: string, value: string): (r: Query)
    requires HasKey(q, key)
    ensures Get(r, key) == Some(value)
    ensures forall k :: k != key ==> Get(r, k) == Get(q, k)
    ensures forall k :: HasKey(r, k) <==> HasKey(q, k)
  {
    if q[0].0 == key then [(key, value)] + RemoveKey(q[1..], key)
    else [q[0]] + ReplaceFirst(q[1..], key, value)
  }

  lemma {:induction false} GetAppend(q: Query, k: string, v: string, key: string)
    ensures Get(q + [(k, v)], key) == if HasKey(q, key) then Get(q, key) else if k == key then Some(v) else None
    ensures HasKey(q + [(k, v)], key) <==> HasKey(q, key) || k == key
  {
    if q != [] {
      GetAppend(q[1..], k, v, key);
      assert (q + [(k, v)])[1..] == q[1..] + [(k, v)];
    }
  }

  /** Some pair has that name. */
  lemma {:induction false} HasKeyIndex(q: Query, key: string)
    ensures HasKey(q, key) <==> exists i :: 0 <= i < |q| && q[i].0 == key
  {
    if q != [] {
      HasKeyIndex(q[1..], key);
      if HasKey(q[1..], key) {
        var i :| 0 <= i < |q[1..]| && q[1..][i].0 == key;
        assert q[i + 1].0 == key;
      }
      if i :| 0 < i < |q| && q[i].0 == key {
        assert q[1..][i - 1].0 == key;
      }
    }
  }

  /** `params.set(key, value)`: the first pair named `key` takes the value and later ones
      go; without such a pair, the new pair goes at the end. */
  function SetParam(q: Query, key: string, value: string): (r: Query)
    ensures Get(r, key) == Some(value)
    ensures forall k :: k != key ==> Get(r, k) == Get(q, k)
    ensures forall k :: HasKey(r, k) <==> HasKey(q, k) || k == key
  {
    if HasKey(q, key) then ReplaceFirst(q, key, value)
    else
      var r := q + [(key, value)];
      forall k ensures Get(r, k) == (if HasKey(q, k) then Get(q, k) else if key == k then Some(value) else None)
        && (HasKey(r, k) <==> HasKey(q, k) || key == k) {
        GetAppend(q, key, value, k);
      }
      r
  }

  /** A `URLSearchParams` object that code fills by successive `set` calls. */
  class SearchParams {
    var pairs: Query

    constructor ()
      ensures pairs == []
    {
      pairs := [];
    }

    method Set(key: string, value: string)
      modifies this
      ensures pairs == SetParam(old(pairs), key, value)
    {
      pairs := SetParam(pairs, key, value);
    }
  }
}
