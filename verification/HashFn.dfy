/** core/evm.go, `GetHashFn`: block hashes by number below a header, with a cache filled on the way. */
module HashFns {
  import opened Numbers
  import opened Transactions
  import opened ChainTree

  /** `number - 1` on 64-bit words. */
  function Pred(n: nat): nat {
    if n == 0 then MAX_UINT64 else n - 1
  }

  class HashFn {
    const headers: Tree
    const genesis: Hash
    const ref: Block
    var cache: Option<map<nat, Hash>>

    ghost predicate Chain() {
      && WellFormed(headers, genesis) && ref.number < MAX_UINT64
      && forall h :: h in headers ==> headers[h].number < MAX_UINT64
    }

    predicate Has(h: Hash, n: nat) {
      h in headers && headers[h].number == n
    }

    /** The answer by plain ancestry; the parent field of genesis stands at the wrapped number. */
    ghost function HashAt(n: nat): Option<Hash>
      requires Chain()
    {
      if n == Pred(ref.number) then Some(ref.parent)
      else if !Has(ref.parent, Pred(ref.number)) then None
      else if n < ref.number then Some(Path(headers, genesis, ref.parent)[n])
      else if n == MAX_UINT64 then Some(headers[genesis].parent)
      else None
    }

    ghost predicate Valid()
      reads this
    {
      && Chain()
      && (cache.Some? ==>
            && Pred(ref.number) in cache.value
            && forall n :: n in cache.value ==> HashAt(n) == Some(cache.value[n]))
    }

    constructor (headers: Tree, genesis: Hash, ref: Block)
      requires WellFormed(headers, genesis) && (forall h :: h in headers ==> headers[h].number < MAX_UINT64)
      requires ref.number < MAX_UINT64
      ensures Valid() && this.headers == headers && this.genesis == genesis && this.ref == ref
    {
      this.headers, this.genesis, this.ref, cache := headers, genesis, ref, None;
    }

    /** The answer depends on the number alone, not on the calls that came before. */
    method Get(n: nat) returns (r: Option<Hash>)
      requires Valid()
      modifies this`cache
      ensures Valid() && r == HashAt(n)
      ensures ref.number > 0 ==>
                var known := ref.parent in headers && headers[ref.parent].number == ref.number - 1;
                && (n == ref.number - 1 ==> r == Some(ref.parent))
                && (n < ref.number - 1 ==> r == if known then Some(Path(headers, genesis, ref.parent)[n]) else None)
                && (ref.number <= n < 0xFFFF_FFFF_FFFF_FFFF ==> r == None)
                && (n == 0xFFFF_FFFF_FFFF_FFFF ==> r == if known then Some(headers[genesis].parent) else None)
      ensures ref.number == 0 ==> r == if n == 0xFFFF_FFFF_FFFF_FFFF then Some(ref.parent) else None
    {
      hide Path, WellFormed;
      var c := if cache.Some? then cache.value else map[Pred(ref.number) := ref.parent];
      cache := Some(c);
      if n in c {
        return Some(c[n]);
      }
      var h, number: nat := ref.parent, Pred(ref.number);
      ghost var known := Has(h, number);
      while Has(h, number)
        invariant Valid() && cache.Some?
        invariant known ==> (Has(h, number) && number < ref.number && Path(headers, genesis, ref.parent)[number] == h)
                            || number == MAX_UINT64
        invariant !known ==> h == ref.parent && number == Pred(ref.number)
        invariant n != Pred(ref.number) && (known && n < ref.number ==> n < number < MAX_UINT64)
        invariant known && number == MAX_UINT64 ==> n != MAX_UINT64
        decreases if number == MAX_UINT64 then 0 else number + 1
      {
        if number == 0 {
          Origin(headers, genesis, h);
        } else {
          StepDown(headers, genesis, ref.parent, h);
        }
        cache := Some(cache.value[Pred(number) := headers[h].parent]);
        if n == Pred(number) {
          return Some(headers[h].parent);
        }
        h, number := headers[h].parent, Pred(number);
      }
      r := None;
    }
  }

  lemma Origin(t: Tree, g: Hash, h: Hash)
    requires WellFormed(t, g) && h in t && t[h].number == 0
    ensures h == g
  {
    assert h == g || Linked(t, h);
  }
}
