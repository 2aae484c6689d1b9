/** The attribute dictionaries of dot nodes, edges and defaults (`{key: value}`),
    modelled as association lists in insertion order.  Assigning to a present
    key keeps its position; assigning to a new key appends it; deleting removes it. */
module Attrs {
  import opened Wrappers

  type Attribs = seq<(string, string)>

  function Keys(a: Attribs): (ks: seq<string>)
    ensures |ks| == |a|
    ensures forall i :: 0 <= i < |a| ==> ks[i] == a[i].0
  {
    if a == [] then [] else [a[0].0] + Keys(a[1..])
  }

  predicate Has(a: Attribs, k: string) {
    k in Keys(a)
  }

  /** No key occurs twice: what a Python dict guarantees. */
  predicate Valid(a: Attribs) {
    a == [] || (!Has(a[1..], a[0].0) && Valid(a[1..]))
  }

  /** `a.get(k)`. */
  function Lookup(a: Attribs, k: string): (r: Option<string>)
    ensures r.Some? <==> Has(a, k)
    ensures r.Some? ==> (k, r.value) in a
  {
    if a == [] then None
    else if a[0].0 == k then Some(a[0].1)
    else Lookup(a[1..], k)
  }

  /** `a[k] = v`. */
  function Put(a: Attribs, k: string, v: string): (r: Attribs)
  {
    if a == [] then [(k, v)]
    else if a[0].0 == k then [(k, v)] + a[1..]
    else [a[0]] + Put(a[1..], k, v)
  }

  /** `del a[k]` (for a present key) and `a.pop(k)`. */
  function Remove(a: Attribs, k: string): (r: Attribs)
  {
    if a == [] then []
    else if a[0].0 == k then Remove(a[1..], k)
    else [a[0]] + Remove(a[1..], k)
  }

  lemma {:induction false} PutLookup(a: Attribs, k: string, v: string, j: string)
    ensures Lookup(Put(a, k, v), j) == if j == k then Some(v) else Lookup(a, j)
  {
    if a != [] && a[0].0 != k {
      PutLookup(a[1..], k, v, j);
    }
  }

  /** Assigning keeps the position of a present key and appends a new one. */
  lemma {:induction false} PutKeys(a: Attribs, k: string, v: string)
    ensures Keys(Put(a, k, v)) == if Has(a, k) then Keys(a) else Keys(a) + [k]
  {
    if a != [] && a[0].0 != k {
      PutKeys(a[1..], k, v);
      assert Keys(a) == [a[0].0] + Keys(a[1..]);
    }
  }

  lemma {:induction false} PutValid(a: Attribs, k: string, v: string)
    requires Valid(a)
    ensures Valid(Put(a, k, v))
  {
    if a != [] && a[0].0 != k {
      PutValid(a[1..], k, v);
      PutLookup(a[1..], k, v, a[0].0);
    }
  }

  lemma {:induction false} RemoveLookup(a: Attribs, k: string, j: string)
    ensures Lookup(Remove(a, k), j) == if j == k then None else Lookup(a, j)
  {
    if a != [] {
      RemoveLookup(a[1..], k, j);
    }
  }

  lemma {:induction false} RemoveValid(a: Attribs, k: string)
    requires Valid(a)
    ensures Valid(Remove(a, k))
  {
    if a != [] {
      RemoveValid(a[1..], k);
      if a[0].0 != k {
        RemoveLookup(a[1..], k, a[0].0);
      }
    }
  }

  /** Removing an absent key leaves the dictionary as it was. */
  lemma {:induction false} RemoveAbsent(a: Attribs, k: string)
    requires !Has(a, k)
    ensures Remove(a, k) == a
  {
    if a != [] {
      assert Keys(a) == [a[0].0] + Keys(a[1..]);
      RemoveAbsent(a[1..], k);
    }
  }

  /** `['%s="%s"' % (k, v) for (k, v) in a.items()]`. */
  function Quoted(a: Attribs): (r: seq<string>)
    ensures |r| == |a|
    ensures forall i :: 0 <= i < |a| ==> r[i] == a[i].0 + "=\"" + a[i].1 + "\""
  {
    if a == [] then [] else [a[0].0 + "=\"" + a[0].1 + "\""] + Quoted(a[1..])
  }
}
