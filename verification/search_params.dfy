/** The part of `URLSearchParams` the request builder uses: an ordered list
    of name/value pairs with `get` and `set` as the URL Standard defines them
    (section 6.2, "Interface URLSearchParams"). Serialisation into a query
    string is not modelled. */
module SearchParams {
  import opened Wrappers

  type Params = seq<(string, string)>

  /** Some pair is named `name`. */
  predicate HasName(ps: Params, name: string) {
    ps != [] && (ps[0].0 == name || HasName(ps[1..], name))
  }

  /** No two pairs share a name. */
  predicate DistinctNames(ps: Params) {
    ps == [] || (!HasName(ps[1..], ps[0].0) && DistinctNames(ps[1..]))
  }

  /** How many pairs are named `name`. */
  function Count(ps: Params, name: string): (n: nat)
    ensures n == 0 <==> !HasName(ps, name)
  {
    if ps == [] then 0 else (if ps[0].0 == name then 1 else 0) + Count(ps[1..], name)
  }

  /** The position of the first pair named `name`, or `|ps|` if there is none. */
  function FirstIndex(ps: Params, name: string): (i: nat)
    ensures i <= |ps|
    ensures i == |ps| <==> !HasName(ps, name)
    ensures i < |ps| ==> ps[i].0 == name
    ensures forall j :: 0 <= j < i ==> ps[j].0 != name
  {
    if ps == [] then 0
    else if ps[0].0 == name then 0
    else 1 + FirstIndex(ps[1..], name)
  }

  /** `params.get(name)`: the value of the first pair with that name. */
  function Get(ps: Params, name: string): (r: Option<string>)
    ensures r.None? <==> !HasName(ps, name)
  {
    if ps == [] then None
    else if ps[0].0 == name then Some(ps[0].1)
    else Get(ps[1..], name)
  }

  /** `get` reads the pair at the position of the first occurrence. */
  lemma {:induction false} GetIsFirst(ps: Params, name: string)
    ensures Get(ps, name).Some? ==> ps[FirstIndex(ps, name)] == (name, Get(ps, name).value)
  {
    if ps != [] && ps[0].0 != name {
      GetIsFirst(ps[1..], name);
    }
  }

  /** The pairs whose name is not `name`, in their order. */
  function Without(ps: Params, name: string): (r: Params)
    ensures !HasName(r, name)
    ensures !HasName(ps, name) ==> r == ps
    ensures forall m :: HasName(r, m) <==> m != name && HasName(ps, m)
  {
    if ps == [] then []
    else if ps[0].0 == name then Without(ps[1..], name)
    else [ps[0]] + Without(ps[1..], name)
  }

  /** `params.set(name, value)`: the first pair with that name takes the new
      value and the later ones are removed; when there is none, the pair is
      appended. Afterwards the name occurs once, at the position of its first
      occurrence, `get` returns the new value, and the pairs with other names
      are the same, in the same order. */
  function Set(ps: Params, name: string, value: string): (r: Params)
    ensures Get(r, name) == Some(value)
    ensures Count(r, name) == 1
    ensures FirstIndex(r, name) == FirstIndex(ps, name)
    ensures Without(r, name) == Without(ps, name)
    ensures !HasName(ps, name) ==> r == ps + [(name, value)]
    ensures forall m :: HasName(r, m) <==> m == name || HasName(ps, m)
  {
    if ps == [] then [(name, value)]
    else if ps[0].0 == name then [(name, value)] + Without(ps[1..], name)
    else [ps[0]] + Set(ps[1..], name, value)
  }

  /** `set` never introduces a second pair with the same name. */
  lemma {:induction false} SetKeepsDistinct(ps: Params, name: string, value: string)
    requires DistinctNames(ps)
    ensures DistinctNames(Set(ps, name, value))
  {
    if ps != [] {
      if ps[0].0 == name {
        WithoutKeepsDistinct(ps[1..], name);
      } else {
        SetKeepsDistinct(ps[1..], name, value);
      }
    }
  }

  lemma {:induction false} WithoutKeepsDistinct(ps: Params, name: string)
    requires DistinctNames(ps)
    ensures DistinctNames(Without(ps, name))
  {
    if ps != [] {
      WithoutKeepsDistinct(ps[1..], name);
    }
  }

  /** With distinct names, `get` finds the one pair carrying the name. */
  lemma {:induction false} GetDistinct(ps: Params, i: nat)
    requires DistinctNames(ps) && i < |ps|
    ensures Get(ps, ps[i].0) == Some(ps[i].1)
  {
    if i > 0 {
      assert ps[1..][i - 1] == ps[i];
      HasNameAt(ps[1..], i - 1);
      GetDistinct(ps[1..], i - 1);
    }
  }

  lemma {:induction false} HasNameAt(ps: Params, i: nat)
    requires i < |ps|
    ensures HasName(ps, ps[i].0)
  {
    if i > 0 {
      assert ps[1..][i - 1] == ps[i];
      HasNameAt(ps[1..], i - 1);
    }
  }

  /** A name no pair carries is absent. */
  lemma {:induction false} AbsentName(ps: Params, name: string)
    requires forall i :: 0 <= i < |ps| ==> ps[i].0 != name
    ensures !HasName(ps, name)
  {
    if ps != [] {
      AbsentName(ps[1..], name);
    }
  }

  /** Pairwise different names are distinct names. */
  lemma {:induction false} DistinctByIndex(ps: Params)
    requires forall i, j :: 0 <= i < j < |ps| ==> ps[i].0 != ps[j].0
    ensures DistinctNames(ps)
  {
    if ps != [] {
      AbsentName(ps[1..], ps[0].0);
      DistinctByIndex(ps[1..]);
    }
  }
}
