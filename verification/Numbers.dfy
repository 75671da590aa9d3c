/** Words and bounds. */
module Numbers {

  const MAX_UINT64: nat := 0xFFFF_FFFF_FFFF_FFFF
  const MAX_INT64: nat := 0x7FFF_FFFF_FFFF_FFFF

  function Min(a: nat, b: nat): nat {
    if a < b then a else b
  }

  function Max(a: nat, b: nat): nat {
    if a < b then b else a
  }

  /** The `n` integers from `a` on. */
  ghost function Range(a: int, n: nat): (r: set<int>)
    ensures forall v :: v in r <==> a <= v < a + n
    ensures |r| == n
  {
    if n == 0 then {} else Range(a, n - 1) + {a + n - 1}
  }
}
