/**
 * The part of the URLSearchParams container that the adapter uses: its
 * ordered list of name/value pairs, `keys()` and `getAll(name)`.
 * The model starts from the already split and decoded pair list.
 */
module SearchParams {

  /** A URLSearchParams object: its name/value pairs in insertion order. */
  type Params = seq<(string, string)>

  /**
   * URLSearchParams.keys(): the name of every pair, in order, so a name
   * that occurs in several pairs is yielded several times.
   */
  function Keys(p: Params): (ks: seq<string>)
    ensures |ks| == |p|
    ensures forall i :: 0 <= i < |p| ==> ks[i] == p[i].0
  {
    if p == [] then [] else [p[0].0] + Keys(p[1..])
  }

  /**
   * URLSearchParams.getAll(name): the values of the pairs called `name`, in
   * order; each of them comes from such a pair, and there are no more of them than pairs.
   */
  function GetAll(p: Params, name: string): (vs: seq<string>)
    ensures |vs| <= |p|
    ensures forall i :: 0 <= i < |vs| ==> (name, vs[i]) in p
  {
    if p == [] then []
    else (if p[0].0 == name then [p[0].1] else []) + GetAll(p[1..], name)
  }

  /** getAll returns exactly the values that are paired with the name. */
  lemma {:induction false} GetAllMembers(p: Params, name: string, v: string)
    ensures v in GetAll(p, name) <==> (name, v) in p
  {
    if p != [] {
      GetAllMembers(p[1..], name, v);
      assert p == [p[0]] + p[1..];
    }
  }

  /** getAll finds some value exactly for the names that keys() yields. */
  lemma {:induction false} GetAllNonEmpty(p: Params, name: string)
    ensures |GetAll(p, name)| > 0 <==> name in Keys(p)
  {
    if p != [] {
      GetAllNonEmpty(p[1..], name);
      assert Keys(p) == [p[0].0] + Keys(p[1..]);
    }
  }

  /**
   * getAll keeps insertion order: the values of a later block of pairs
   * follow those of an earlier one.
   */
  lemma {:induction false} GetAllAppend(p: Params, q: Params, name: string)
    ensures GetAll(p + q, name) == GetAll(p, name) + GetAll(q, name)
  {
    if p == [] {
      assert p + q == q;
    } else {
      assert (p + q)[1..] == p[1..] + q;
      GetAllAppend(p[1..], q, name);
    }
  }

  /** Appending a pair (URLSearchParams.append) adds its value at the end of that name's list only. */
  lemma AppendPair(p: Params, name: string, value: string, other: string)
    requires other != name
    ensures GetAll(p + [(name, value)], name) == GetAll(p, name) + [value]
    ensures GetAll(p + [(name, value)], other) == GetAll(p, other)
  {
    GetAllAppend(p, [(name, value)], name);
    GetAllAppend(p, [(name, value)], other);
    assert GetAll([(name, value)], name) == [value] + GetAll([], name);
    assert GetAll([(name, value)], other) == [] + GetAll([], other);
  }
}
