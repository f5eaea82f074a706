/**
 * A JavaScript plain object used as a string dictionary (`contactInfo`): its
 * `Object.keys` order (insertion order, an assignment to a key that is already
 * present keeping its place) and its key-to-value mapping.
 */
module Dicts {
  import opened Wrappers

  type Pair = (string, string)

  datatype Dict = Dict(order: seq<string>, entries: map<string, string>)

  const Empty := Dict([], map[])

  /** `Object.keys(d)`. */
  function Keys(d: Dict): seq<string> {
    d.order
  }

  /** Every key is listed once, and exactly the mapped keys are listed. */
  predicate Valid(d: Dict) {
    (forall i, j :: 0 <= i < j < |d.order| ==> d.order[i] != d.order[j])
    && (forall k :: k in d.entries ==> k in d.order)
    && (forall k :: k in d.order ==> k in d.entries)
  }

  /** `d[k]`, `None` standing for `undefined`. */
  function Get(d: Dict, k: string): Option<string> {
    if k in d.entries then Some(d.entries[k]) else None
  }

  /** `d[k] || ""` for a dictionary whose values are strings. */
  function GetOrEmpty(d: Dict, k: string): string {
    Get(d, k).GetOr("")
  }

  /** `d[k] = v`: a new key goes last, an existing key keeps its place. */
  function Put(d: Dict, k: string, v: string): Dict {
    Dict(if k in d.order then d.order else d.order + [k], d.entries[k := v])
  }

  /** The dictionary built by assigning the pairs in order, starting from `{}`. */
  function FromPairs(ps: seq<Pair>): Dict {
    if ps == [] then Empty else Put(FromPairs(ps[..|ps| - 1]), ps[|ps| - 1].0, ps[|ps| - 1].1)
  }

  /** Assignment keeps a dictionary well formed. */
  lemma PutValid(d: Dict, k: string, v: string)
    requires Valid(d)
    ensures Valid(Put(d, k, v))
  {
    var r := Put(d, k, v);
    if k !in d.order {
      forall i, j | 0 <= i < j < |r.order| ensures r.order[i] != r.order[j] {
        if j == |d.order| {
          assert r.order[i] == d.order[i];
        }
      }
    }
  }

  /** Every dictionary built from pairs is well formed. */
  lemma {:induction false} FromPairsValid(ps: seq<Pair>)
    ensures Valid(FromPairs(ps))
  {
    if ps != [] {
      FromPairsValid(ps[..|ps| - 1]);
      PutValid(FromPairs(ps[..|ps| - 1]), ps[|ps| - 1].0, ps[|ps| - 1].1);
    }
  }

  lemma {:induction false} FromPairsSnoc(ps: seq<Pair>, p: Pair)
    ensures FromPairs(ps + [p]) == Put(FromPairs(ps), p.0, p.1)
  {
    var g := ps + [p];
    assert g[..|g| - 1] == ps;
  }
}
