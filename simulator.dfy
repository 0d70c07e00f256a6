/**
  The workload side of the simulator: the driver that issues allocations and
  releases against one chunk list while recording the live addresses, and the
  inspection that counts the free chunks and totals their size. The random
  numbers the driver consumes are given to it as a sequence of draws.
*/
module Simulator {
  import opened Arena
  import opened FitSearch
  import opened Allocator

  /**
    The random numbers one step of the driver consumes: `random` decides between
    release and allocation and fixes the request size; `pick` chooses which live
    allocation to release (drawn only for a release with something live).
  */
  datatype Draw = Draw(random: nat, pick: nat)

  /**
    The request size a draw produces: 1 to 7 units, doubled unless the draw is
    a multiple of 23, and multiplied by 5 unless it is a multiple of 53.
  */
  function RequestSize(random: nat): (r: int)
    ensures 1 <= r <= 70
  {
    var size := random % 7 + 1;
    var size := if random % 23 != 0 then size * 2 else size;
    if random % 53 != 0 then size * 5 else size
  }

  /** Removes position i by moving the last element into it. */
  function RemoveUnordered(v: seq<int>, i: int): (r: seq<int>)
    requires 0 <= i < |v|
    ensures |r| == |v| - 1
    ensures multiset(r) == multiset(v) - multiset{v[i]}
  {
    var last := |v| - 1;
    assert v == v[..i] + [v[i]] + v[i + 1..];
    if i == last then
      v[..last]
    else
      assert v[i + 1..] == v[i + 1..last] + [v[last]];
      assert v[i := v[last]][..last] == v[..i] + [v[last]] + v[i + 1..last];
      v[i := v[last]][..last]
  }

  /** Counts the free chunks and totals their sizes, in list order. */
  method InspectResults(s: seq<Chunk>) returns (count: nat, total: int)
    ensures count == |Filter(s, Free)|
    ensures total == Sum(Filter(s, Free))
  {
    count, total := 0, 0;
    var i := 0;
    while i < |s|
      invariant 0 <= i <= |s|
      invariant count == |Filter(s[..i], Free)|
      invariant total == Sum(Filter(s[..i], Free))
    {
      ghost var seen := Filter(s[..i], Free);
      assert s[..i + 1][..i] == s[..i];
      if s[i].status == Free {
        assert Filter(s[..i + 1], Free) == seen + [s[i]];
        assert (seen + [s[i]])[..|seen|] == seen;
        count := count + 1;
        total := total + s[i].size;
      } else {
        assert Filter(s[..i + 1], Free) == seen;
      }
      i := i + 1;
    }
    assert s[..i] == s;
  }

  /**
    One step of the driver, as a value: the list and the recorded addresses
    after the draw `d`. A draw that is a multiple of 3 releases the recorded
    address `pick` chooses, if any is recorded; any other draw requests
    RequestSize units and records the answer unless it is -1.
  */
  ghost function Step(s: seq<Chunk>, live: seq<int>, d: Draw, strategy: Strategy): (seq<Chunk>, seq<int>)
  {
    if d.random % 3 == 0 then
      if |live| > 0 then
        var i := d.pick % |live|;
        (Freed(s, live[i]), RemoveUnordered(live, i))
      else (s, live)
    else
      var after := Allocation(s, RequestSize(d.random), strategy);
      (after.0, if after.1 > -1 then live + [after.1] else live)
  }

  /** The list and the recorded addresses after the driver has consumed `draws`, in order. */
  ghost function Run(s: seq<Chunk>, live: seq<int>, draws: seq<Draw>, strategy: Strategy): (seq<Chunk>, seq<int>)
  {
    if draws == [] then (s, live)
    else
      var before := Run(s, live, draws[..|draws| - 1], strategy);
      Step(before.0, before.1, draws[|draws| - 1], strategy)
  }

  /**
    Runs the driver over `draws`. A draw that is a multiple of 3 releases a live
    allocation (chosen by `pick`) if there is one; any other draw requests
    RequestSize units and records the address on success. The recorded
    addresses stay exactly the live allocations of the list, each once.
  */
  method SimulateActivity(list: ChunkList, live: seq<int>, draws: seq<Draw>, strategy: Strategy)
    returns (live': seq<int>)
    requires list.Valid() && multiset(live) == multiset(Live(list.chunks))
    modifies list
    ensures (list.chunks, live') == Run(old(list.chunks), live, draws, strategy)
    ensures list.Valid() && multiset(live') == multiset(Live(list.chunks))
  {
    live' := live;
    for n := 0 to |draws|
      invariant (list.chunks, live') == Run(old(list.chunks), live, draws[..n], strategy)
      invariant list.Valid() && multiset(live') == multiset(Live(list.chunks))
    {
      assert draws[..n + 1][..n] == draws[..n];
      ghost var s, recorded := list.chunks, live';
      var random := draws[n].random;
      if random % 3 == 0 {
        if |live'| > 0 {
          var i := draws[n].pick % |live'|;
          var pos := live'[i];
          live' := RemoveUnordered(live', i);
          list.Release(pos);
          assert pos in multiset(Live(s));
          MultisetOfSetRemove(Live(s), pos);
        }
      } else {
        var size := RequestSize(random);
        var address := list.Allocate(size, strategy);
        if address > -1 {
          live' := live' + [address];
          MultisetOfSetAdd(Live(s), address);
        }
      }
      assert (list.chunks, live') == Step(s, recorded, draws[n], strategy);
    }
    assert draws[..|draws|] == draws;
  }

  /**
    One trial of the simulator: a fresh arena, the driver over `draws`, then the
    inspection. `final` and `live` are the list and the recorded addresses the
    draws produce from the initial arena; the list is well formed, the count
    and total are those of its free chunks, and `live` records exactly its live
    allocations. So the free total lies within the arena, is zero exactly when
    no chunk is free, and there is at most one more free chunk than live
    allocations.
  */
  method Trial(draws: seq<Draw>, strategy: Strategy)
    returns (count: nat, total: int, live: seq<int>, final: seq<Chunk>)
    ensures (final, live) == Run([Chunk(Free, 0, ArenaSize)], [], draws, strategy)
    ensures WellFormed(final) && multiset(live) == multiset(Live(final))
    ensures count == |Filter(final, Free)| && total == Sum(Filter(final, Free))
    ensures 0 <= total <= ArenaSize
    ensures count == 0 <==> total == 0
    ensures count <= |live| + 1
  {
    var list := new ChunkList();
    assert Live(list.chunks) == {} by { LiveSingle(list.chunks[0]); }
    live := SimulateActivity(list, [], draws, strategy);
    final := list.chunks;
    count, total := InspectResults(final);
    SpaceConserved(final);
    FilterPositive(final, Free);
    SumNonNegative(Filter(final, Free));
    FreeChunksBound(final);
    LiveCount(final);
    assert |live| == |Live(final)| by {
      assert |multiset(live)| == |live|;
      MultisetOfSetSize(Live(final));
    }
  }

  /**
    Full reclaim: releasing every live allocation, in any order, leaves the
    single free chunk spanning the arena.
  */
  method ReleaseAll(list: ChunkList, order: seq<int>)
    requires list.Valid() && multiset(order) == multiset(Live(list.chunks))
    modifies list
    ensures list.chunks == [Chunk(Free, 0, ArenaSize)]
  {
    for n := 0 to |order|
      invariant list.Valid() && multiset(order[n..]) == multiset(Live(list.chunks))
    {
      ghost var before := Live(list.chunks);
      assert order[n..] == [order[n]] + order[n + 1..];
      list.Release(order[n]);
      assert order[n] in multiset(before);
      MultisetOfSetRemove(before, order[n]);
    }
    assert multiset(Live(list.chunks)) == multiset{};
    MultisetOfSetSize(Live(list.chunks));
    FullReclaim(list.chunks);
  }

  /** Facts about the multiset of a set's elements, used to track the recorded addresses. */
  lemma MultisetOfSetRemove(s: set<int>, x: int)
    requires x in s
    ensures multiset(s - {x}) == multiset(s) - multiset{x}
  {
  }

  lemma MultisetOfSetAdd(s: set<int>, x: int)
    requires x !in s
    ensures multiset(s + {x}) == multiset(s) + multiset{x}
  {
  }

  lemma MultisetOfSetSize(s: set<int>)
    ensures |multiset(s)| == |s|
  {
  }
}
