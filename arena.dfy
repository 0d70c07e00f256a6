/**
  The simulated arena and its chunk list, viewed as a sequence of chunks in
  list (address) order, with the structural invariants every public operation
  of the allocator keeps and the facts about them that the allocator's proofs use.
*/
module Arena {

  /** Size of the simulated arena, in units (1 KB). */
  const ArenaSize := 1024

  datatype Status = Free | Occupied

  /** One address-contiguous region of the arena. */
  datatype Chunk = Chunk(status: Status, address: int, size: int)
  {
    /** The first address past the chunk. */
    function End(): int { address + size }
  }

  /** Total size of the chunks, accumulated in list order. */
  function Sum(s: seq<Chunk>): int
  {
    if s == [] then 0 else Sum(s[..|s| - 1]) + s[|s| - 1].size
  }

  /** The chunks of status `st`, in list order. */
  function Filter(s: seq<Chunk>, st: Status): (r: seq<Chunk>)
    ensures |r| <= |s|
    ensures forall i :: 0 <= i < |r| ==> r[i].status == st
  {
    if s == [] then []
    else Filter(s[..|s| - 1], st) + (if s[|s| - 1].status == st then [s[|s| - 1]] else [])
  }

  /** The start addresses of the occupied chunks: the live allocations. */
  function Live(s: seq<Chunk>): set<int>
  {
    if s == [] then {}
    else Live(s[..|s| - 1]) + (if s[|s| - 1].status == Occupied then {s[|s| - 1].address} else {})
  }

  /** Every chunk has a positive size. */
  ghost predicate Positive(s: seq<Chunk>)
  {
    forall i :: 0 <= i < |s| ==> s[i].size > 0
  }

  /** Each chunk starts where its predecessor ends: no gaps, no overlaps. */
  ghost predicate Contiguous(s: seq<Chunk>)
  {
    forall i, j :: 0 <= i < j < |s| && j == i + 1 ==> s[i].End() == s[j].address
  }

  /** No two neighbouring chunks are both free: free chunks are maximal. */
  ghost predicate Coalesced(s: seq<Chunk>)
  {
    forall i, j :: 0 <= i < j < |s| && j == i + 1 ==> !(s[i].status == Free && s[j].status == Free)
  }

  /** The invariants of the chunk list: it covers the arena from address 0 with positive, maximal-free chunks. */
  ghost predicate WellFormed(s: seq<Chunk>)
  {
    |s| > 0 && s[0].address == 0 && Positive(s) && Contiguous(s) && Coalesced(s) && Sum(s) == ArenaSize
  }

  lemma {:induction false} SumConcat(a: seq<Chunk>, b: seq<Chunk>)
    ensures Sum(a + b) == Sum(a) + Sum(b)
  {
    if b == [] {
      assert a + b == a;
    } else {
      assert (a + b)[..|a + b| - 1] == a + b[..|b| - 1];
      SumConcat(a, b[..|b| - 1]);
    }
  }

  /** A list is its prefix, its middle and its suffix. */
  lemma ThreeParts(s: seq<Chunk>, lo: int, hi: int)
    requires 0 <= lo <= hi <= |s|
    ensures s == s[..lo] + s[lo..hi] + s[hi..]
  {
  }

  lemma SumParts(a: seq<Chunk>, m: seq<Chunk>, b: seq<Chunk>)
    ensures Sum(a + m + b) == Sum(a) + Sum(m) + Sum(b)
  {
    SumConcat(a + m, b);
    SumConcat(a, m);
  }

  lemma LiveParts(a: seq<Chunk>, m: seq<Chunk>, b: seq<Chunk>)
    ensures Live(a + m + b) == Live(a) + Live(m) + Live(b)
  {
    LiveConcat(a + m, b);
    LiveConcat(a, m);
  }

  /** The invariants other than the total carry over to every slice of a list. */
  lemma SliceKeepsShape(s: seq<Chunk>, i: int, j: int)
    requires 0 <= i <= j <= |s|
    ensures Positive(s) ==> Positive(s[i..j])
    ensures Contiguous(s) ==> Contiguous(s[i..j])
    ensures Coalesced(s) ==> Coalesced(s[i..j])
  {
  }

  /** Two contiguous lists whose junction meets form a contiguous list. */
  lemma JoinContiguous(a: seq<Chunk>, b: seq<Chunk>)
    requires Contiguous(a) && Contiguous(b)
    requires a != [] && b != [] ==> a[|a| - 1].End() == b[0].address
    ensures Contiguous(a + b)
  {
  }

  /** Two coalesced lists not both free at their junction form a coalesced list. */
  lemma JoinCoalesced(a: seq<Chunk>, b: seq<Chunk>)
    requires Coalesced(a) && Coalesced(b)
    requires a != [] && b != [] ==> !(a[|a| - 1].status == Free && b[0].status == Free)
    ensures Coalesced(a + b)
  {
  }

  /**
    Replacing the chunks at positions lo..hi-1 of a well-formed list by chunks
    that start and end at the same addresses, are themselves positive,
    contiguous and coalesced, and meet their neighbours without putting two
    free chunks side by side gives a well-formed list.
  */
  lemma ReplaceKeepsWellFormed(s: seq<Chunk>, lo: int, hi: int, m: seq<Chunk>)
    requires WellFormed(s) && 0 <= lo < hi <= |s| && m != []
    requires m[0].address == s[lo].address && m[|m| - 1].End() == s[hi - 1].End()
    requires Positive(m) && Contiguous(m) && Coalesced(m)
    requires lo > 0 ==> !(s[lo - 1].status == Free && m[0].status == Free)
    requires hi < |s| ==> !(m[|m| - 1].status == Free && s[hi].status == Free)
    ensures WellFormed(s[..lo] + m + s[hi..])
  {
    ReplaceKeepsShape(s, lo, hi, m);
    ReplaceKeepsSum(s, lo, hi, m);
    assert (s[..lo] + m + s[hi..])[0] == if lo == 0 then m[0] else s[0];
  }

  lemma ReplaceKeepsShape(s: seq<Chunk>, lo: int, hi: int, m: seq<Chunk>)
    requires Positive(s) && Contiguous(s) && Coalesced(s) && 0 <= lo < hi <= |s| && m != []
    requires m[0].address == s[lo].address && m[|m| - 1].End() == s[hi - 1].End()
    requires Positive(m) && Contiguous(m) && Coalesced(m)
    requires lo > 0 ==> !(s[lo - 1].status == Free && m[0].status == Free)
    requires hi < |s| ==> !(m[|m| - 1].status == Free && s[hi].status == Free)
    ensures Positive(s[..lo] + m + s[hi..]) && Contiguous(s[..lo] + m + s[hi..]) && Coalesced(s[..lo] + m + s[hi..])
  {
    var a, b := s[..lo], s[hi..];
    assert Positive(a + m) && Contiguous(a + m) && Coalesced(a + m) by {
      SliceKeepsShape(s, 0, lo);
      if lo > 0 {
        assert s[lo - 1].End() == s[lo].address;
      }
      JoinShape(a, m);
    }
    SliceKeepsShape(s, hi, |s|);
    if hi < |s| {
      assert s[hi - 1].End() == s[hi].address;
    }
    JoinShape(a + m, b);
  }

  lemma {:induction false} ReplaceKeepsSum(s: seq<Chunk>, lo: int, hi: int, m: seq<Chunk>)
    requires Contiguous(s) && 0 <= lo < hi <= |s| && m != [] && Contiguous(m)
    requires m[0].address == s[lo].address && m[|m| - 1].End() == s[hi - 1].End()
    ensures Sum(s[..lo] + m + s[hi..]) == Sum(s)
  {
    var n := s[lo..hi];
    assert Sum(s) == Sum(s[..lo]) + Sum(n) + Sum(s[hi..]) by {
      ThreeParts(s, lo, hi);
      SumParts(s[..lo], n, s[hi..]);
    }
    assert Sum(n) == s[hi - 1].End() - s[lo].address by {
      SliceKeepsShape(s, lo, hi);
      SumIsSpan(n);
      assert n[0] == s[lo] && n[|n| - 1] == s[hi - 1];
    }
    assert Sum(m) == m[|m| - 1].End() - m[0].address by {
      SumIsSpan(m);
    }
    SumParts(s[..lo], m, s[hi..]);
  }

  /** Joining two well-shaped lists whose junction meets and is not free on both sides. */
  lemma JoinShape(a: seq<Chunk>, b: seq<Chunk>)
    requires Positive(a) && Contiguous(a) && Coalesced(a)
    requires Positive(b) && Contiguous(b) && Coalesced(b)
    requires a != [] && b != [] ==> a[|a| - 1].End() == b[0].address
    requires a != [] && b != [] ==> !(a[|a| - 1].status == Free && b[0].status == Free)
    ensures Positive(a + b) && Contiguous(a + b) && Coalesced(a + b)
  {
  }

  /** The starting list, a single free chunk spanning the arena, is well formed. */
  lemma InitialWellFormed()
    ensures WellFormed([Chunk(Free, 0, ArenaSize)])
  {
  }

  /** The sum around position k: what comes before, the chunk itself, and what comes after. */
  lemma SumAround(s: seq<Chunk>, k: int)
    requires 0 <= k < |s|
    ensures Sum(s) == Sum(s[..k]) + s[k].size + Sum(s[k + 1..])
  {
    var front, back := s[..k], s[k + 1..];
    var upto := front + [s[k]];
    assert s == upto + back;
    SumConcat(upto, back);
    assert upto[..|upto| - 1] == front;
  }

  lemma {:induction false} SumNonNegative(s: seq<Chunk>)
    requires Positive(s)
    ensures Sum(s) >= 0
    ensures Sum(s) == 0 <==> s == []
  {
    if s != [] {
      SumNonNegative(s[..|s| - 1]);
    }
  }

  lemma {:induction false} FilterConcat(a: seq<Chunk>, b: seq<Chunk>, st: Status)
    ensures Filter(a + b, st) == Filter(a, st) + Filter(b, st)
  {
    if b == [] {
      assert a + b == a;
    } else {
      assert (a + b)[..|a + b| - 1] == a + b[..|b| - 1];
      FilterConcat(a, b[..|b| - 1], st);
    }
  }

  lemma {:induction false} LiveConcat(a: seq<Chunk>, b: seq<Chunk>)
    ensures Live(a + b) == Live(a) + Live(b)
  {
    if b == [] {
      assert a + b == a;
    } else {
      assert (a + b)[..|a + b| - 1] == a + b[..|b| - 1];
      LiveConcat(a, b[..|b| - 1]);
    }
  }

  /** A chunk's start is live exactly when that chunk is occupied. */
  lemma LiveSingle(c: Chunk)
    ensures Live([c]) == if c.status == Occupied then {c.address} else {}
  {
  }

  /** An occupied chunk's start address is live. */
  lemma {:induction false} LiveContains(s: seq<Chunk>, i: int)
    requires 0 <= i < |s| && s[i].status == Occupied
    ensures s[i].address in Live(s)
  {
    if i < |s| - 1 {
      LiveContains(s[..|s| - 1], i);
    }
  }

  /** An address no chunk starts at is not live. */
  lemma {:induction false} NotAStart(s: seq<Chunk>, x: int)
    requires forall i :: 0 <= i < |s| ==> s[i].address != x
    ensures x !in Live(s)
  {
    if s != [] {
      NotAStart(s[..|s| - 1], x);
    }
  }

  /** Live addresses lie within the range of the chunk starts. */
  lemma {:induction false} LiveBetween(s: seq<Chunk>, lo: int, hi: int)
    requires forall i :: 0 <= i < |s| ==> lo <= s[i].address < hi
    ensures forall x :: x in Live(s) ==> lo <= x < hi
  {
    if s != [] {
      LiveBetween(s[..|s| - 1], lo, hi);
    }
  }

  /** The start of chunk k is not live in any part of the list that lies wholly before or wholly after it. */
  lemma LiveOutside(s: seq<Chunk>, k: int, lo: int, hi: int)
    requires Positive(s) && Contiguous(s)
    requires 0 <= lo <= k < hi <= |s|
    ensures s[k].address !in Live(s[..lo]) && s[k].address !in Live(s[hi..])
  {
    forall i | 0 <= i < lo ensures s[0].address <= s[..lo][i].address < s[k].address {
      AddressesIncrease(s, i, k);
      if i > 0 { AddressesIncrease(s, 0, i); }
    }
    LiveBetween(s[..lo], s[0].address, s[k].address);
    forall i | 0 <= i < |s| - hi ensures s[k].address < s[hi..][i].address <= s[|s| - 1].address {
      AddressesIncrease(s, k, hi + i);
      if hi + i < |s| - 1 { AddressesIncrease(s, hi + i, |s| - 1); }
    }
    LiveBetween(s[hi..], s[k].address + 1, s[|s| - 1].address + 1);
  }

  /** In a list of positive contiguous chunks, a free chunk's start is not live. */
  lemma FreeStartNotLive(s: seq<Chunk>, k: int)
    requires Positive(s) && Contiguous(s) && 0 <= k < |s| && s[k].status == Free
    ensures s[k].address !in Live(s)
  {
    assert Live(s) == Live(s[..k]) + Live(s[k + 1..]) by {
      assert s == s[..k] + [s[k]] + s[k + 1..];
      LiveParts(s[..k], [s[k]], s[k + 1..]);
      LiveSingle(s[k]);
    }
    LiveOutside(s, k, k, k + 1);
  }

  /** Along a list of positive, contiguous chunks the addresses strictly increase. */
  lemma {:induction false} AddressesIncrease(s: seq<Chunk>, i: int, j: int)
    requires Positive(s) && Contiguous(s)
    requires 0 <= i < j < |s|
    ensures s[i].address < s[i].End() <= s[j].address
  {
    if j > i + 1 {
      AddressesIncrease(s, i, j - 1);
    }
  }

  /** Contiguity from 0: each chunk starts at the total size of the chunks before it. */
  lemma {:induction false} StartIsPrefixSum(s: seq<Chunk>, i: int)
    requires Contiguous(s) && |s| > 0 && s[0].address == 0
    requires 0 <= i < |s|
    ensures s[i].address == Sum(s[..i])
  {
    if i == 0 {
      assert s[..0] == [];
    } else {
      StartIsPrefixSum(s, i - 1);
      assert s[..i][..i - 1] == s[..i - 1];
    }
  }

  /** A contiguous list's total size is the span from its first start to its last end. */
  lemma {:induction false} SumIsSpan(s: seq<Chunk>)
    requires Contiguous(s) && |s| > 0
    ensures Sum(s) == s[|s| - 1].End() - s[0].address
  {
    if |s| == 1 {
      assert s[..0] == [];
    } else {
      SumIsSpan(s[..|s| - 1]);
    }
  }

  /** Every chunk of a well-formed list lies inside the arena. */
  lemma ChunksInArena(s: seq<Chunk>, i: int)
    requires WellFormed(s) && 0 <= i < |s|
    ensures 0 <= s[i].address < s[i].End() <= ArenaSize
  {
    StartIsPrefixSum(s, i);
    assert s[..i + 1][..i] == s[..i];
    SumNonNegative(s[..i]);
    SumConcat(s[..i + 1], s[i + 1..]);
    assert s[..i + 1] + s[i + 1..] == s;
    SumNonNegative(s[i + 1..]);
  }

  /** Free and occupied chunks together account for the whole list. */
  lemma {:induction false} FilterPartition(s: seq<Chunk>)
    ensures Sum(Filter(s, Free)) + Sum(Filter(s, Occupied)) == Sum(s)
    ensures |Filter(s, Free)| + |Filter(s, Occupied)| == |s|
  {
    if s != [] {
      var p, c := s[..|s| - 1], s[|s| - 1];
      FilterPartition(p);
      assert Sum([c]) == c.size by { assert [c][..0] == []; }
      if c.status == Free {
        assert Filter(s, Free) == Filter(p, Free) + [c];
        assert Filter(s, Occupied) == Filter(p, Occupied);
        SumConcat(Filter(p, Free), [c]);
      } else {
        assert Filter(s, Occupied) == Filter(p, Occupied) + [c];
        assert Filter(s, Free) == Filter(p, Free);
        SumConcat(Filter(p, Occupied), [c]);
      }
    }
  }

  /** In a well-formed list the free space and the occupied space add up to the arena. */
  lemma SpaceConserved(s: seq<Chunk>)
    requires WellFormed(s)
    ensures Sum(Filter(s, Free)) + Sum(Filter(s, Occupied)) == ArenaSize
    ensures 0 <= Sum(Filter(s, Free)) <= ArenaSize
  {
    FilterPartition(s);
    FilterPositive(s, Free);
    FilterPositive(s, Occupied);
    SumNonNegative(Filter(s, Free));
    SumNonNegative(Filter(s, Occupied));
  }

  lemma {:induction false} FilterPositive(s: seq<Chunk>, st: Status)
    requires Positive(s)
    ensures Positive(Filter(s, st))
  {
    if s != [] {
      FilterPositive(s[..|s| - 1], st);
    }
  }

  /**
    Fragmentation bound: because free chunks are maximal, there is at most one
    more free chunk than occupied chunks (one more only when the list ends free).
  */
  lemma {:induction false} FreeChunksBound(s: seq<Chunk>)
    requires Coalesced(s)
    ensures |Filter(s, Free)| <= |Filter(s, Occupied)| + (if s != [] && s[|s| - 1].status == Free then 1 else 0)
  {
    if s != [] {
      var p := s[..|s| - 1];
      assert Coalesced(p);
      FreeChunksBound(p);
    }
  }

  /** In a well-formed list the occupied chunks have distinct starts, so there are as many live addresses as occupied chunks. */
  lemma {:induction false} LiveCount(s: seq<Chunk>)
    requires Positive(s) && Contiguous(s)
    ensures |Live(s)| == |Filter(s, Occupied)|
  {
    if s != [] {
      var p, c := s[..|s| - 1], s[|s| - 1];
      assert Positive(p) && Contiguous(p);
      LiveCount(p);
      if c.status == Occupied {
        forall i | 0 <= i < |p| ensures s[0].address <= p[i].address < c.address {
          AddressesIncrease(s, i, |s| - 1);
          if i > 0 { AddressesIncrease(s, 0, i); }
        }
        LiveBetween(p, s[0].address, c.address);
        assert c.address !in Live(p);
      }
    }
  }

  /** Full reclaim: a well-formed list with nothing live is the single free chunk spanning the arena. */
  lemma FullReclaim(s: seq<Chunk>)
    requires WellFormed(s) && Live(s) == {}
    ensures s == [Chunk(Free, 0, ArenaSize)]
  {
    forall i | 0 <= i < |s| ensures s[i].status == Free {
      if s[i].status == Occupied {
        LiveContains(s, i);
      }
    }
    assert |s| == 1;
    assert s == [s[0]];
    assert s[..0] == [];
    assert Sum(s) == s[0].size;
  }
}
