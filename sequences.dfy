/** Sequence operations the services are built from: the slice used for
    pagination and the value view of an insertion-ordered dictionary. */
module Sequences {

  function Min(a: int, b: int): int
  {
    if a <= b then a else b
  }

  /** Python's `s[skip:skip + limit]` and JavaScript's `s.slice(skip, skip + limit)`
      for non-negative bounds: both ends are clamped to the length. */
  function Page<T>(s: seq<T>, skip: nat, limit: nat): (r: seq<T>)
    ensures |r| == if skip >= |s| then 0 else Min(limit, |s| - skip)
    ensures forall i :: 0 <= i < |r| ==> r[i] == s[skip + i]
  {
    if skip >= |s| then [] else s[skip .. Min(skip + limit, |s|)]
  }

  /** Consecutive pages tile the sequence: no element is skipped or repeated. */
  lemma PagesTile<T>(s: seq<T>, skip: nat, n: nat, m: nat)
    ensures Page(s, skip, n) + Page(s, skip + n, m) == Page(s, skip, n + m)
  {
  }

  ghost predicate Distinct<T>(s: seq<T>)
  {
    forall i, j :: 0 <= i < j < |s| ==> s[i] != s[j]
  }

  /** `s` with every occurrence of `x` taken out, the others in their order. */
  function Without<T(==,!new)>(s: seq<T>, x: T): (r: seq<T>)
    ensures forall y :: y in r <==> y in s && y != x
    ensures Distinct(s) ==> Distinct(r)
  {
    if s == [] then []
    else
      var init := Without(s[..|s| - 1], x);
      var last := s[|s| - 1];
      assert forall y :: y in s <==> y in s[..|s| - 1] || y == last;
      assert Distinct(s) ==> Distinct(s[..|s| - 1]) && last !in s[..|s| - 1];
      if last == x then init else init + [last]
  }

  /** Python's `list(d.values())` for a dictionary whose keys were inserted in
      the order `keys`. */
  function ValuesOf<K, V>(keys: seq<K>, m: map<K, V>): seq<V>
    requires forall k :: k in keys ==> k in m
  {
    seq(|keys|, i requires 0 <= i < |keys| => m[keys[i]])
  }

  /** Inserting a fresh key appends its value and leaves the others as they were. */
  lemma ValuesOfInsert<K, V>(keys: seq<K>, m: map<K, V>, k: K, v: V)
    requires forall j :: j in keys ==> j in m
    requires k !in keys
    ensures ValuesOf(keys + [k], m[k := v]) == ValuesOf(keys, m) + [v]
  {
  }
}
