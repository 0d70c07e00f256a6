/**
  The allocator over the chunk list: allocation by splitting the chunk a fit
  search picks, release by marking a chunk free and merging it with free
  neighbours. `Split` and `Coalesce` state what the two operations do to the
  list; the lemmas show they keep the list's invariants and update the set of
  live allocations exactly; `ChunkList` performs them in place.
*/
module Allocator {
  import opened Wrappers
  import opened Arena
  import opened FitSearch

  /**
    What a fitting chunk becomes when `size` units are allocated from it: on an
    exact fit, the same chunk occupied; otherwise an occupied chunk of `size`
    units at its start followed by the rest of it, free.
  */
  function Carve(c: Chunk, size: int): (r: seq<Chunk>)
    ensures |r| == 1 <==> c.size == size
    ensures 1 <= |r| <= 2 && r[0] == Chunk(Occupied, c.address, size)
    ensures |r| == 2 ==> r[0].End() == r[1].address && r[1].status == c.status
    ensures r[|r| - 1].End() == c.End() && Sum(r) == c.size
  {
    var piece := Chunk(Occupied, c.address, size);
    if c.size == size then
      assert [piece][..0] == [];
      [c.(status := Occupied)]
    else
      var rest := c.(address := c.address + size, size := c.size - size);
      assert [piece, rest][..1] == [piece] && [piece][..0] == [];
      assert Sum([piece]) == size;
      [piece, rest]
  }

  /**
    The list after allocating `size` units from the chunk at position k: on an
    exact fit that chunk alone becomes occupied; otherwise an occupied chunk of
    `size` units takes its front and the rest of it stays behind, just after.
  */
  function Split(s: seq<Chunk>, k: int, size: int): (r: seq<Chunk>)
    requires 0 <= k < |s|
    ensures s[k].size == size ==>
      |r| == |s| && r[k] == s[k].(status := Occupied) &&
      forall j :: 0 <= j < |s| && j != k ==> r[j] == s[j]
    ensures s[k].size != size ==>
      |r| == |s| + 1 &&
      r[k] == Chunk(Occupied, s[k].address, size) &&
      r[k + 1] == s[k].(address := s[k].address + size, size := s[k].size - size) &&
      (forall j :: 0 <= j < k ==> r[j] == s[j]) &&
      (forall j :: k < j < |s| ==> r[j + 1] == s[j])
  {
    s[..k] + Carve(s[k], size) + s[k + 1..]
  }

  /** First position of the run a release at k merges: k's free predecessor, or k itself. */
  function MergeFirst(s: seq<Chunk>, k: int): int
    requires 0 <= k < |s|
  {
    if k > 0 && s[k - 1].status == Free then k - 1 else k
  }

  /** Position just past the run a release at k merges: past k's free successor, or past k. */
  function MergeLast(s: seq<Chunk>, k: int): int
    requires 0 <= k < |s|
  {
    if k + 1 < |s| && s[k + 1].status == Free then k + 2 else k + 1
  }

  /**
    The list after releasing the chunk at position k: the run from MergeFirst to
    MergeLast (the chunk with a free predecessor and a free successor) becomes
    one free chunk that starts where the run starts and whose size is the run's
    total; the chunks before and after the run are kept, in order.
  */
  function Coalesce(s: seq<Chunk>, k: int): (r: seq<Chunk>)
    requires 0 <= k < |s|
    ensures var lo, hi := MergeFirst(s, k), MergeLast(s, k);
      r == s[..lo] + [Chunk(Free, s[lo].address, Sum(s[lo..hi]))] + s[hi..]
  {
    var lo, hi := MergeFirst(s, k), MergeLast(s, k);
    var size := (if lo < k then s[k - 1].size else 0) + s[k].size + (if k + 1 < hi then s[k + 1].size else 0);
    RunTotal(s, k);
    s[..lo] + [Chunk(Free, s[lo].address, size)] + s[hi..]
  }

  /** The merged size, added up neighbour by neighbour, is the total size of the run. */
  lemma RunTotal(s: seq<Chunk>, k: int)
    requires 0 <= k < |s|
    ensures var lo, hi := MergeFirst(s, k), MergeLast(s, k);
      Sum(s[lo..hi]) == (if lo < k then s[k - 1].size else 0) + s[k].size + (if k + 1 < hi then s[k + 1].size else 0)
  {
    var lo, hi := MergeFirst(s, k), MergeLast(s, k);
    SumAround(s[lo..hi], k - lo);
    assert s[lo..hi][..k - lo] == if lo < k then [s[k - 1]] else [];
    assert s[lo..hi][k - lo + 1..] == if k + 1 < hi then [s[k + 1]] else [];
    if lo < k {
      assert Sum([s[k - 1]]) == s[k - 1].size by { assert [s[k - 1]][..0] == []; }
    }
    if k + 1 < hi {
      assert Sum([s[k + 1]]) == s[k + 1].size by { assert [s[k + 1]][..0] == []; }
    }
  }

  /** Position k holds the first chunk that starts at `pos`. */
  ghost predicate IsFirstAt(s: seq<Chunk>, pos: int, k: int)
  {
    0 <= k < |s| && s[k].address == pos && forall j :: 0 <= j < k ==> s[j].address != pos
  }

  /** The scan of the release operation: the first chunk starting at `pos`, or None. */
  method FindAddress(s: seq<Chunk>, pos: int) returns (r: Option<nat>)
    ensures r.None? <==> forall i :: 0 <= i < |s| ==> s[i].address != pos
    ensures r.Some? ==> IsFirstAt(s, pos, r.value)
  {
    var i := 0;
    while i < |s| && s[i].address != pos
      invariant 0 <= i <= |s|
      invariant forall j :: 0 <= j < i ==> s[j].address != pos
    {
      i := i + 1;
    }
    r := if i == |s| then None else Some(i);
  }

  /** Allocating from a fitting free chunk keeps the list's invariants. */
  lemma SplitWellFormed(s: seq<Chunk>, k: int, size: int)
    requires WellFormed(s) && 0 <= k < |s| && Fits(s[k], size) && size > 0
    ensures WellFormed(Split(s, k, size))
  {
    var m := Carve(s[k], size);
    assert k + 1 < |s| ==> !(s[k].status == Free && s[k + 1].status == Free);
    ReplaceKeepsWellFormed(s, k, k + 1, m);
  }

  /** Carving a free chunk leaves exactly its start live. */
  lemma CarveLive(c: Chunk, size: int)
    requires c.status == Free
    ensures Live(Carve(c, size)) == {c.address}
  {
    var m := Carve(c, size);
    LiveSingle(m[0]);
    if c.size != size {
      LiveSingle(m[1]);
      assert m == [m[0]] + [m[1]];
      LiveConcat([m[0]], [m[1]]);
    }
  }

  /** Allocating from a free chunk makes its start live and leaves every other live address as it was. */
  lemma SplitLive(s: seq<Chunk>, k: int, size: int)
    requires 0 <= k < |s| && s[k].status == Free
    ensures Live(Split(s, k, size)) == Live(s) + {s[k].address}
  {
    var c, a, b := s[k], s[..k], s[k + 1..];
    var m := Carve(c, size);
    assert Live(s) == Live(a + [c] + b) by { assert s == a + [c] + b; }
    assert Live(Split(s, k, size)) == Live(a + m + b) by { assert Split(s, k, size) == a + m + b; }
    CarveLive(c, size);
    FreeReplacedLive(a, c, m, b);
  }

  /** Putting chunks whose only live start is c's in place of a free chunk c adds c's start to the live set. */
  lemma FreeReplacedLive(a: seq<Chunk>, c: Chunk, m: seq<Chunk>, b: seq<Chunk>)
    requires c.status == Free && Live(m) == {c.address}
    ensures Live(a + m + b) == Live(a + [c] + b) + {c.address}
  {
    LiveParts(a, m, b);
    LiveParts(a, [c], b);
    LiveSingle(c);
  }

  /**
    Releasing the chunk at position k keeps the list's invariants, and the
    merged chunk spans exactly the run it replaces.
  */
  lemma CoalesceWellFormed(s: seq<Chunk>, k: int)
    requires WellFormed(s) && 0 <= k < |s|
    ensures WellFormed(Coalesce(s, k))
    ensures Coalesce(s, k)[MergeFirst(s, k)].End() == s[MergeLast(s, k) - 1].End()
  {
    var lo, hi := MergeFirst(s, k), MergeLast(s, k);
    var run := s[lo..hi];
    var merged := Chunk(Free, s[lo].address, Sum(run));
    assert Coalesce(s, k) == s[..lo] + [merged] + s[hi..];
    SliceKeepsShape(s, lo, hi);
    SumIsSpan(run);
    SumNonNegative(run);
    assert Positive([merged]);
    ReplaceKeepsWellFormed(s, lo, hi, [merged]);
  }

  /** The run a release merges holds at most one live address: that of the released chunk. */
  lemma RunLive(s: seq<Chunk>, k: int)
    requires 0 <= k < |s|
    ensures Live(s[MergeFirst(s, k)..MergeLast(s, k)]) == Live([s[k]])
  {
    var lo, hi := MergeFirst(s, k), MergeLast(s, k);
    var left := if lo < k then [s[k - 1]] else [];
    var right := if k + 1 < hi then [s[k + 1]] else [];
    assert s[lo..hi] == left + [s[k]] + right;
    assert Live(left) == {} && Live(right) == {} by {
      if lo < k { LiveSingle(s[k - 1]); }
      if k + 1 < hi { LiveSingle(s[k + 1]); }
    }
    LiveParts(left, [s[k]], right);
  }

  /** Releasing the chunk at position k removes exactly its start from the live set. */
  lemma CoalesceLive(s: seq<Chunk>, k: int)
    requires Positive(s) && Contiguous(s) && 0 <= k < |s|
    ensures Live(Coalesce(s, k)) == Live(s) - {s[k].address}
  {
    var lo, hi := MergeFirst(s, k), MergeLast(s, k);
    var merged := Coalesce(s, k)[lo];
    assert Coalesce(s, k) == s[..lo] + [merged] + s[hi..];
    assert Live(s) == Live(s[..lo]) + Live([s[k]]) + Live(s[hi..]) by {
      ThreeParts(s, lo, hi);
      LiveParts(s[..lo], s[lo..hi], s[hi..]);
      RunLive(s, k);
    }
    LiveParts(s[..lo], [merged], s[hi..]);
    LiveSingle(s[k]);
    LiveSingle(merged);
    LiveOutside(s, k, lo, hi);
  }

  /** Releasing the chunk just allocated from a free chunk gives back the list as it was before. */
  lemma ReleaseUndoesAllocate(s: seq<Chunk>, k: int, size: int)
    requires WellFormed(s) && 0 <= k < |s| && Fits(s[k], size) && size > 0
    ensures Coalesce(Split(s, k, size), k) == s
  {
    UndoBetweenOccupied(s, k, size);
  }

  /** The same, for a free chunk whose neighbours are occupied. */
  lemma UndoBetweenOccupied(s: seq<Chunk>, k: int, size: int)
    requires 0 <= k < |s| && Fits(s[k], size)
    requires k > 0 ==> s[k - 1].status == Occupied
    requires k + 1 < |s| ==> s[k + 1].status == Occupied
    ensures Coalesce(Split(s, k, size), k) == s
  {
    var a, b := s[..k], s[k + 1..];
    assert s == a + [s[k]] + b;
    assert Split(s, k, size) == a + Carve(s[k], size) + b;
    UndoCarve(a, s[k], size, b);
  }

  /** Merging back what was carved out of a free chunk c, between occupied neighbours, restores c. */
  lemma UndoCarve(a: seq<Chunk>, c: Chunk, size: int, b: seq<Chunk>)
    requires Fits(c, size)
    requires a != [] ==> a[|a| - 1].status == Occupied
    requires b != [] ==> b[0].status == Occupied
    ensures Coalesce(a + Carve(c, size) + b, |a|) == a + [c] + b
  {
    var m := Carve(c, size);
    var r, k := a + m + b, |a|;
    var hi := k + |m|;
    assert r[..k] == a && r[k..hi] == m && r[hi..] == b;
    assert MergeFirst(r, k) == k && MergeLast(r, k) == hi by {
      assert k > 0 ==> r[k - 1] == a[|a| - 1];
      assert hi < |r| ==> r[hi] == b[0];
    }
    assert Chunk(Free, r[k].address, Sum(r[k..hi])) == c;
  }

  /** Releasing a chunk that is already free leaves a well-formed list unchanged. */
  lemma ReleaseFreeIsNoOp(s: seq<Chunk>, k: int)
    requires WellFormed(s) && 0 <= k < |s| && s[k].status == Free
    ensures Coalesce(s, k) == s
  {
    assert k > 0 ==> s[k - 1].status == Occupied;
    assert k + 1 < |s| ==> s[k + 1].status == Occupied;
    assert MergeFirst(s, k) == k && MergeLast(s, k) == k + 1;
    assert s[k..k + 1] == [s[k]] && [s[k]][..0] == [];
    assert Coalesce(s, k) == s[..k] + [s[k]] + s[k + 1..];
  }


  /**
    What allocating `size` units does, as a value: the list is unchanged and the
    answer is -1 when no free chunk fits; otherwise the chunk the strategy selects
    is split and its address is the answer. The selected chunk is unique, so
    this is a function of its inputs.
  */
  ghost function Allocation(s: seq<Chunk>, size: int, strategy: Strategy): (seq<Chunk>, int)
  {
    if NoFit(s, size) then (s, -1)
    else
      SelectedExists(strategy, s, size);
      var k :| Selected(strategy, s, size, k);
      (Split(s, k, size), s[k].address)
  }

  /** Allocation at the chunk the strategy selects. */
  lemma AllocationAt(s: seq<Chunk>, size: int, strategy: Strategy, k: int)
    requires Selected(strategy, s, size, k)
    ensures Allocation(s, size, strategy) == (Split(s, k, size), s[k].address)
  {
    forall k' | Selected(strategy, s, size, k') ensures k' == k {
      SelectedUnique(strategy, s, size, k, k');
    }
  }

  /** Whenever some chunk starts at `pos`, there is a first one. */
  lemma {:induction false} FirstAtExists(s: seq<Chunk>, pos: int, i: int)
    requires 0 <= i < |s| && s[i].address == pos
    ensures exists k :: IsFirstAt(s, pos, k)
  {
    if !IsFirstAt(s, pos, i) {
      var j :| 0 <= j < i && s[j].address == pos;
      FirstAtExists(s, pos, j);
    }
  }

  /**
    What releasing `pos` does, as a value: nothing when no chunk starts there,
    otherwise the first chunk that does is freed and merged with free neighbours.
  */
  ghost function Freed(s: seq<Chunk>, pos: int): seq<Chunk>
  {
    if forall i :: 0 <= i < |s| ==> s[i].address != pos then s
    else
      var i :| 0 <= i < |s| && s[i].address == pos;
      FirstAtExists(s, pos, i);
      var k :| IsFirstAt(s, pos, k);
      Coalesce(s, k)
  }

  /** Release at the first chunk starting at `pos`. */
  lemma FreedAt(s: seq<Chunk>, pos: int, k: int)
    requires IsFirstAt(s, pos, k)
    ensures Freed(s, pos) == Coalesce(s, k)
  {
    forall k' | IsFirstAt(s, pos, k') ensures k' == k {
    }
  }

  /** The arena's chunk list, changed in place by allocation and release. */
  class ChunkList {
    var chunks: seq<Chunk>

    /** The list's structural invariants hold. */
    ghost predicate Valid()
      reads this
    {
      WellFormed(chunks)
    }

    /** The starting state: a single free chunk covering the whole arena. */
    constructor ()
      ensures chunks == [Chunk(Free, 0, ArenaSize)]
      ensures Valid()
    {
      chunks := [Chunk(Free, 0, ArenaSize)];
      new;
      InitialWellFormed();
    }

    /**
      Allocates `size` units from the chunk `strategy` picks and answers its
      start, or -1 with the list unchanged when no free chunk is large enough.
    */
    method Allocate(size: int, strategy: Strategy) returns (address: int)
      modifies this
      ensures (chunks, address) == Allocation(old(chunks), size, strategy)
      ensures NoFit(old(chunks), size) ==> address == -1 && chunks == old(chunks)
      ensures !NoFit(old(chunks), size) ==>
        exists k :: Selected(strategy, old(chunks), size, k) &&
          address == old(chunks)[k].address && chunks == Split(old(chunks), k, size)
      ensures old(Valid()) ==> (address == -1 <==> NoFit(old(chunks), size))
      ensures old(Valid()) && size > 0 ==> Valid()
      ensures old(Valid()) && size > 0 && address != -1 ==>
        0 <= address && address !in Live(old(chunks)) && Live(chunks) == Live(old(chunks)) + {address}
    {
      var found := Search(strategy, chunks, size);
      if found.None? {
        assert Allocation(chunks, size, strategy) == (chunks, -1);
        return -1;
      }
      var k := found.value;
      ghost var s := chunks;
      var slab := chunks[k];
      address := slab.address;
      if slab.size == size {
        chunks := chunks[k := slab.(status := Occupied)];
        assert chunks == Split(s, k, size);
      } else {
        // shrink the free chunk from the front, then insert the new piece just before it
        chunks := chunks[k := slab.(address := slab.address + size, size := slab.size - size)];
        chunks := chunks[..k] + [Chunk(Occupied, slab.address, size)] + chunks[k..];
        assert chunks == Split(s, k, size);
      }
      assert (chunks, address) == Allocation(s, size, strategy) by {
        AllocationAt(s, size, strategy, k);
      }
      if WellFormed(s) {
        ChunksInArena(s, k);
        if size > 0 {
          SplitWellFormed(s, k, size);
          SplitLive(s, k, size);
          FreeStartNotLive(s, k);
        }
      }
    }

    /**
      Releases the chunk that starts at `pos`, merging it with free neighbours;
      does nothing when no chunk starts there.
    */
    method Release(pos: int)
      modifies this
      ensures (forall i :: 0 <= i < |old(chunks)| ==> old(chunks)[i].address != pos) ==> chunks == old(chunks)
      ensures chunks == Freed(old(chunks), pos)
      ensures forall k :: IsFirstAt(old(chunks), pos, k) ==> chunks == Coalesce(old(chunks), k)
      ensures old(Valid()) ==> Valid() && Live(chunks) == Live(old(chunks)) - {pos}
    {
      var found := FindAddress(chunks, pos);
      if found.None? {
        NotAStart(chunks, pos);
        return;
      }
      var k := found.value;
      var slab := chunks[k].(status := Free);
      // absorb a free predecessor: take its start and its size, and drop it
      var first := k;
      if k > 0 && chunks[k - 1].status == Free {
        slab := slab.(address := chunks[k - 1].address, size := slab.size + chunks[k - 1].size);
        first := k - 1;
      }
      // absorb a free successor: take its size, and drop it
      var last := k + 1;
      if k + 1 < |chunks| && chunks[k + 1].status == Free {
        slab := slab.(size := slab.size + chunks[k + 1].size);
        last := k + 2;
      }
      ghost var s := chunks;
      chunks := chunks[..first] + [slab] + chunks[last..];
      assert chunks == Coalesce(s, k) by {
        assert first == MergeFirst(s, k) && last == MergeLast(s, k);
      }
      assert forall k' :: IsFirstAt(s, pos, k') ==> k' == k;
      assert chunks == Freed(s, pos) by { FreedAt(s, pos, k); }
      if WellFormed(s) {
        assert WellFormed(chunks) && Live(chunks) == Live(s) - {pos} by {
          CoalesceWellFormed(s, k);
          CoalesceLive(s, k);
        }
      }
    }
  }
}
