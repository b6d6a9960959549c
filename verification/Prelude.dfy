/** Shared datatypes and the few sequence facts every component needs. */
module Prelude {

  datatype Option<+T> = None | Some(value: T) {
    function GetOr(default: T): T {
      match this
      case Some(v) => v
      case None => default
    }
  }

  /** JavaScript truthiness of an optional string: present and non-empty. */
  predicate Truthy(s: Option<string>) {
    s.Some? && s.value != ""
  }

  predicate NoDup<T(==)>(s: seq<T>) {
    forall i, j :: 0 <= i < j < |s| ==> s[i] != s[j]
  }

  /** A duplicate-free sequence over a finite set is no longer than the set is large. */
  lemma {:induction false} NoDupBounded<T>(s: seq<T>, u: set<T>)
    requires NoDup(s) && forall x :: x in s ==> x in u
    ensures |s| <= |u|
  {
    if |s| > 0 {
      var last := s[|s| - 1];
      NoDupBounded(s[..|s| - 1], u - {last});
    }
  }

  /** The value a map holds for a key, as an option. */
  function Lookup<K, V>(m: map<K, V>, k: K): (r: Option<V>)
    ensures r.Some? <==> k in m
    ensures r.Some? ==> r.value == m[k]
  {
    if k in m then Some(m[k]) else None
  }

  lemma OverwriteTwice<K, V>(m: map<K, V>, k: K, a: V, b: V)
    ensures m[k := a][k := b] == m[k := b]
  {
  }

  lemma OneMore(k: int, b: int)
    ensures (k + 1) * b == k * b + b
  {
  }
}
