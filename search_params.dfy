/**
 * The name/value pairs of a URL's query as URLSearchParams holds them, already
 * form-decoded, in order. Only `get` and `set` are used by the share links.
 */
module SearchParams {
  import opened Wrappers
  import opened JsStrings

  type Params = seq<(JsString, JsString)>

  /** URLSearchParams.get: the value of the first pair with that name. */
  function Get(ps: Params, name: JsString): (r: Option<JsString>)
    ensures r.None? <==> forall i :: 0 <= i < |ps| ==> ps[i].0 != name
    ensures r.Some? ==>
      exists i :: 0 <= i < |ps| && ps[i] == (name, r.value) && forall j :: 0 <= j < i ==> ps[j].0 != name
  {
    if ps == [] then None
    else if ps[0].0 == name then Some(ps[0].1)
    else
      var r := Get(ps[1..], name);
      assert r.Some? ==>
        exists i :: 0 <= i < |ps| && ps[i] == (name, r.value) && forall j :: 0 <= j < i ==> ps[j].0 != name by {
        if r.Some? {
          var i :| 0 <= i < |ps[1..]| && ps[1..][i] == (name, r.value)
            && forall j :: 0 <= j < i ==> ps[1..][j].0 != name;
          assert ps[i + 1] == (name, r.value);
          assert forall j :: 0 <= j < i + 1 ==> ps[j].0 != name by {
            forall j | 0 <= j < i + 1 ensures ps[j].0 != name {
              if j > 0 {
                assert ps[j] == ps[1..][j - 1];
              }
            }
          }
        }
      }
      r
  }

  /** The pairs with other names, in order. */
  function WithoutName(ps: Params, name: JsString): (r: Params)
    ensures forall i :: 0 <= i < |r| ==> r[i].0 != name
    ensures forall p :: p in r ==> p in ps
  {
    if ps == [] then []
    else if ps[0].0 == name then WithoutName(ps[1..], name)
    else [ps[0]] + WithoutName(ps[1..], name)
  }

  /**
   * URLSearchParams.set: the first pair with that name takes the value and the
   * later ones are removed; with no such pair, the pair is appended.
   */
  function Set(ps: Params, name: JsString, value: JsString): (r: Params)
    ensures (name, value) in r
    ensures forall p :: p in r ==> p == (name, value) || p in ps
  {
    if ps == [] then [(name, value)]
    else if ps[0].0 == name then [(name, value)] + WithoutName(ps[1..], name)
    else [ps[0]] + Set(ps[1..], name, value)
  }

  /** `set` then `get` of the same name yields the value set. */
  lemma {:induction false} GetAfterSet(ps: Params, name: JsString, value: JsString)
    ensures Get(Set(ps, name, value), name) == Some(value)
  {
    if ps != [] && ps[0].0 != name {
      GetAfterSet(ps[1..], name, value);
    }
  }

  lemma {:induction false} GetWithoutName(ps: Params, name: JsString, other: JsString)
    requires other != name
    ensures Get(WithoutName(ps, name), other) == Get(ps, other)
  {
    if ps != [] {
      GetWithoutName(ps[1..], name, other);
    }
  }

  /** `set` leaves the other names' values alone. */
  lemma {:induction false} GetOtherAfterSet(ps: Params, name: JsString, value: JsString, other: JsString)
    requires other != name
    ensures Get(Set(ps, name, value), other) == Get(ps, other)
  {
    if ps != [] {
      if ps[0].0 == name {
        GetWithoutName(ps[1..], name, other);
      } else {
        GetOtherAfterSet(ps[1..], name, value, other);
      }
    }
  }

  /** How many pairs carry the name. */
  function Count(ps: Params, name: JsString): nat {
    if ps == [] then 0 else (if ps[0].0 == name then 1 else 0) + Count(ps[1..], name)
  }

  lemma {:induction false} CountWithoutName(ps: Params, name: JsString)
    ensures Count(WithoutName(ps, name), name) == 0
  {
    if ps != [] {
      CountWithoutName(ps[1..], name);
    }
  }

  /** After `set`, exactly one pair carries the name. */
  lemma {:induction false} SetLeavesOnePair(ps: Params, name: JsString, value: JsString)
    ensures Count(Set(ps, name, value), name) == 1
  {
    if ps != [] {
      if ps[0].0 == name {
        CountWithoutName(ps[1..], name);
      } else {
        SetLeavesOnePair(ps[1..], name, value);
      }
    }
  }
}
