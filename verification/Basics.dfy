/** Request ids and small arithmetic that several modules share. */
module Basics {
  type Rid = nat

  function Min(a: int, b: int): int {
    if a <= b then a else b
  }

  function Max(a: int, b: int): int {
    if a <= b then b else a
  }

  function Elems(ids: seq<Rid>): set<Rid> {
    if ids == [] then {} else Elems(ids[..|ids| - 1]) + {ids[|ids| - 1]}
  }

  lemma {:induction false} ElemsAre(ids: seq<Rid>, k: Rid)
    ensures k in Elems(ids) <==> k in ids
  {
    if ids != [] {
      ElemsAre(ids[..|ids| - 1], k);
      assert ids == ids[..|ids| - 1] + [ids[|ids| - 1]];
    }
  }
}
