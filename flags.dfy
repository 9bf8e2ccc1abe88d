/** A record of boolean switches updated with `{ ...m, [k]: !m[k] }`, as the users and settings pages do. */
module Flags {

  /**
   * `{ ...m, [k]: !m[k] }`. A key the record lacks reads as `undefined`, whose negation is `true`,
   * so flipping a missing key adds it switched on.
   */
  function Flip(m: map<string, bool>, k: string): (r: map<string, bool>)
    ensures r.Keys == m.Keys + {k}
    ensures r[k] == !(k in m && m[k])
    ensures forall j :: j in m && j != k ==> r[j] == m[j]
  {
    m[k := !(k in m && m[k])]
  }

  /** Flipping a key the record has, twice, gives back the record. */
  lemma FlipTwice(m: map<string, bool>, k: string)
    requires k in m
    ensures Flip(Flip(m, k), k) == m
  {
  }

  /** Flipping a missing key twice leaves it in the record, switched off. */
  lemma FlipMissingTwice(m: map<string, bool>, k: string)
    requires k !in m
    ensures Flip(Flip(m, k), k) == m[k := false]
  {
  }

  /** Flips of different keys do not interfere. */
  lemma FlipsCommute(m: map<string, bool>, j: string, k: string)
    requires j != k
    ensures Flip(Flip(m, j), k) == Flip(Flip(m, k), j)
  {
  }
}
