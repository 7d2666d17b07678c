/**
 * The default bump allocator of the generated code (jsgen/jsgen.h):
 * a fixed region of JSGEN_BASIC_ALLOC_SIZE bytes, one offset that grows
 * with every successful allocation, and a reset that rewinds the offset.
 * Addresses are given as offsets from the start of the region.
 */
module Arena {
  import opened Wrappers

  /** JSGEN_BASIC_ALLOC_SIZE: 8 MiB. */
  const RegionSize: nat := 8 * 1024 * 1024

  /** Outcome of one allocation request: the offset handed out (None for NULL) and the new offset. */
  datatype Step = Step(block: Option<nat>, used: nat)

  /** What jsgen_basic_alloc does to an arena whose offset is `used`. */
  function Allocate(used: nat, size: nat): (s: Step)
    requires used <= RegionSize
    ensures s.used <= RegionSize
    ensures s.block.None? <==> size > RegionSize - used
    ensures s.block.None? ==> s.used == used
    ensures s.block.Some? ==> s.block.value == used && s.used == used + size
  {
    if size > RegionSize - used then Step(None, used) else Step(Some(used), used + size)
  }

  /** The blocks handed out by a run of requests starting at offset `used` (NULL results skipped). */
  function Blocks(used: nat, sizes: seq<nat>): (r: seq<(nat, nat)>)
    requires used <= RegionSize
    decreases |sizes|
  {
    if sizes == [] then []
    else
      var s := Allocate(used, sizes[0]);
      (if s.block.Some? then [(s.block.value, sizes[0])] else []) + Blocks(s.used, sizes[1..])
  }

  /** The offset after a run of requests. */
  function UsedAfter(used: nat, sizes: seq<nat>): (r: nat)
    requires used <= RegionSize
    ensures used <= r <= RegionSize
    decreases |sizes|
  {
    if sizes == [] then used else UsedAfter(Allocate(used, sizes[0]).used, sizes[1..])
  }

  /** Every block of a run lies in [used, final offset): the region it was carved from. */
  lemma {:induction false} BlocksWithin(used: nat, sizes: seq<nat>)
    requires used <= RegionSize
    ensures forall b :: b in Blocks(used, sizes) ==> used <= b.0 && b.0 + b.1 <= UsedAfter(used, sizes)
    decreases |sizes|
  {
    if sizes != [] {
      var s := Allocate(used, sizes[0]);
      BlocksWithin(s.used, sizes[1..]);
    }
  }

  /** Blocks listed in increasing address order, each ending before the next begins. */
  ghost predicate Ordered(bs: seq<(nat, nat)>)
  {
    forall i, j :: 0 <= i < j < |bs| ==> bs[i].0 + bs[i].1 <= bs[j].0
  }

  /** Blocks of one run occupy pairwise disjoint ranges, in increasing address order. */
  lemma {:induction false} BlocksDisjoint(used: nat, sizes: seq<nat>)
    requires used <= RegionSize
    ensures Ordered(Blocks(used, sizes))
    decreases |sizes|
  {
    if sizes != [] {
      var s := Allocate(used, sizes[0]);
      var rest := Blocks(s.used, sizes[1..]);
      BlocksDisjoint(s.used, sizes[1..]);
      BlocksWithin(s.used, sizes[1..]);
      if s.block.Some? {
        var bs := [(used, sizes[0])] + rest;
        assert Blocks(used, sizes) == bs;
        forall i, j | 0 <= i < j < |bs| ensures bs[i].0 + bs[i].1 <= bs[j].0 {
          if i == 0 {
            assert bs[j] == rest[j - 1] && bs[j] in rest;
          } else {
            assert bs[i] == rest[i - 1] && bs[j] == rest[j - 1];
          }
        }
      } else {
        assert Blocks(used, sizes) == rest;
      }
    }
  }

  /** Two successful allocations in a row are adjacent: the second starts where the first ends. */
  lemma AdjacentBlocks(used: nat, a: nat, b: nat)
    requires used <= RegionSize
    requires Allocate(used, a).block.Some?
    requires Allocate(Allocate(used, a).used, b).block.Some?
    ensures Allocate(Allocate(used, a).used, b).block.value == Allocate(used, a).block.value + a
  {
  }

  /**
   * The region's bookkeeping: the static offset jsgen__basic_alloc_size.
   * The region's bytes themselves are not modelled; only which offsets are handed out.
   */
  class BumpArena {
    var used: nat

    ghost predicate Valid()
      reads this
    {
      used <= RegionSize
    }

    /** A zero-initialised static offset. */
    constructor ()
      ensures Valid() && used == 0
    {
      used := 0;
    }

    /** jsgen_basic_alloc: NULL when the request does not fit, else the old offset. */
    method Alloc(size: nat) returns (block: Option<nat>)
      requires Valid()
      modifies this
      ensures Valid()
      ensures Step(block, used) == Allocate(old(used), size)
      ensures block.Some? ==> block.value + size <= RegionSize
    {
      if size > RegionSize - used {
        block := None;
        return;
      }
      block := Some(used);
      used := used + size;
    }

    /** jsgen_free: rewinds the offset, so the next allocation starts at the base. */
    method Free()
      modifies this
      ensures Valid() && used == 0
      ensures forall size: nat :: size <= RegionSize ==> Allocate(used, size).block == Some(0)
    {
      used := 0;
    }
  }
}
