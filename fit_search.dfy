/**
  The two fit searches the allocator can be given. Each scans the whole chunk
  list and answers the position of a free chunk able to hold the request, or
  None (the list's end sentinel) when no free chunk is large enough.
*/
module FitSearch {
  import opened Wrappers
  import opened Arena

  /** The search the allocator is parameterised by. */
  datatype Strategy = BestFit | WorstFit

  /** Chunk `c` can hold a request of `size` units. */
  predicate Fits(c: Chunk, size: int)
  {
    c.status == Free && c.size >= size
  }

  /** No free chunk of `s` can hold the request. */
  ghost predicate NoFit(s: seq<Chunk>, size: int)
  {
    forall i :: 0 <= i < |s| ==> !Fits(s[i], size)
  }

  /**
    Position k holds the best fit: a fitting chunk whose slack `size - requested`
    is the least, and no earlier fitting chunk has slack as small.
  */
  ghost predicate IsBestFit(s: seq<Chunk>, size: int, k: int)
  {
    0 <= k < |s| && Fits(s[k], size) &&
    (forall j :: 0 <= j < |s| && Fits(s[j], size) ==> s[k].size - size <= s[j].size - size) &&
    (forall j :: 0 <= j < k && Fits(s[j], size) ==> s[k].size - size < s[j].size - size)
  }

  /**
    Position k holds the worst fit: a fitting chunk whose slack is the greatest,
    and no earlier fitting chunk has slack as large.
  */
  ghost predicate IsWorstFit(s: seq<Chunk>, size: int, k: int)
  {
    0 <= k < |s| && Fits(s[k], size) &&
    (forall j :: 0 <= j < |s| && Fits(s[j], size) ==> s[k].size - size >= s[j].size - size) &&
    (forall j :: 0 <= j < k && Fits(s[j], size) ==> s[k].size - size > s[j].size - size)
  }

  /** Position k is the one `strategy` picks for a request of `size`. */
  ghost predicate Selected(strategy: Strategy, s: seq<Chunk>, size: int, k: int)
  {
    match strategy
    case BestFit => IsBestFit(s, size, k)
    case WorstFit => IsWorstFit(s, size, k)
  }

  /** Best-fit search: one pass, replacing the candidate only on a strictly smaller slack. */
  method SearchBestFit(s: seq<Chunk>, size: int) returns (r: Option<nat>)
    ensures r.None? <==> NoFit(s, size)
    ensures r.Some? ==> IsBestFit(s, size, r.value)
  {
    r := None;
    var diff := 0;  // slack of the candidate, once there is one
    var i := 0;
    while i < |s|
      invariant 0 <= i <= |s|
      invariant r.None? <==> NoFit(s[..i], size)
      invariant r.Some? ==> IsBestFit(s[..i], size, r.value) && diff == s[r.value].size - size
    {
      assert s[..i + 1] == s[..i] + [s[i]];
      if s[i].status == Free && s[i].size >= size {
        if r.None? || s[i].size - size < diff {
          diff := s[i].size - size;
          r := Some(i);
        }
      }
      i := i + 1;
    }
    assert s[..i] == s;
  }

  /** Worst-fit search: one pass, replacing the candidate only on a strictly larger slack. */
  method SearchWorstFit(s: seq<Chunk>, size: int) returns (r: Option<nat>)
    ensures r.None? <==> NoFit(s, size)
    ensures r.Some? ==> IsWorstFit(s, size, r.value)
  {
    r := None;
    var diff := 0;  // slack of the candidate, once there is one
    var i := 0;
    while i < |s|
      invariant 0 <= i <= |s|
      invariant r.None? <==> NoFit(s[..i], size)
      invariant r.Some? ==> IsWorstFit(s[..i], size, r.value) && diff == s[r.value].size - size
    {
      assert s[..i + 1] == s[..i] + [s[i]];
      if s[i].status == Free && s[i].size >= size {
        if r.None? || s[i].size - size > diff {
          diff := s[i].size - size;
          r := Some(i);
        }
      }
      i := i + 1;
    }
    assert s[..i] == s;
  }

  /** Whenever some free chunk can hold the request, a best fit exists. */
  lemma {:induction false} BestFitExists(s: seq<Chunk>, size: int)
    requires !NoFit(s, size)
    ensures exists k :: IsBestFit(s, size, k)
  {
    var n := |s| - 1;
    var p, c := s[..n], s[n];
    assert forall j :: 0 <= j < n ==> s[j] == p[j];
    if NoFit(p, size) {
      assert Fits(c, size);
      assert IsBestFit(s, size, n);
    } else {
      BestFitExists(p, size);
      var k :| IsBestFit(p, size, k);
      if Fits(c, size) && c.size - size < s[k].size - size {
        assert IsBestFit(s, size, n);
      } else {
        assert IsBestFit(s, size, k);
      }
    }
  }

  /** Whenever some free chunk can hold the request, a worst fit exists. */
  lemma {:induction false} WorstFitExists(s: seq<Chunk>, size: int)
    requires !NoFit(s, size)
    ensures exists k :: IsWorstFit(s, size, k)
  {
    var n := |s| - 1;
    var p, c := s[..n], s[n];
    assert forall j :: 0 <= j < n ==> s[j] == p[j];
    if NoFit(p, size) {
      assert Fits(c, size);
      assert IsWorstFit(s, size, n);
    } else {
      WorstFitExists(p, size);
      var k :| IsWorstFit(p, size, k);
      if Fits(c, size) && c.size - size > s[k].size - size {
        assert IsWorstFit(s, size, n);
      } else {
        assert IsWorstFit(s, size, k);
      }
    }
  }

  /** Whenever some free chunk can hold the request, each strategy selects one. */
  lemma SelectedExists(strategy: Strategy, s: seq<Chunk>, size: int)
    requires !NoFit(s, size)
    ensures exists k :: Selected(strategy, s, size, k)
  {
    match strategy
    case BestFit =>
      BestFitExists(s, size);
      var k :| IsBestFit(s, size, k);
      assert Selected(strategy, s, size, k);
    case WorstFit =>
      WorstFitExists(s, size);
      var k :| IsWorstFit(s, size, k);
      assert Selected(strategy, s, size, k);
  }

  /** Calls the search `strategy` names. */
  method Search(strategy: Strategy, s: seq<Chunk>, size: int) returns (r: Option<nat>)
    ensures r.None? <==> NoFit(s, size)
    ensures r.Some? ==> Selected(strategy, s, size, r.value)
  {
    match strategy
    case BestFit => r := SearchBestFit(s, size);
    case WorstFit => r := SearchWorstFit(s, size);
  }

  /** The tie-breaks make each search's answer unique. */
  lemma SelectedUnique(strategy: Strategy, s: seq<Chunk>, size: int, k: int, k': int)
    requires Selected(strategy, s, size, k) && Selected(strategy, s, size, k')
    ensures k == k'
  {
  }

  /** Free chunks of 10, 50 and 15 units in address order, separated by occupied chunks. */
  function DivergenceExample(): seq<Chunk>
  {
    [Chunk(Free, 0, 10), Chunk(Occupied, 10, 1), Chunk(Free, 11, 50), Chunk(Occupied, 61, 1),
     Chunk(Free, 62, 15), Chunk(Occupied, 77, 947)]
  }

  /** On a request of 8, best fit takes the 10-unit chunk and worst fit the 50-unit chunk. */
  lemma FitStrategiesDiverge()
    ensures WellFormed(DivergenceExample())
    ensures Selected(BestFit, DivergenceExample(), 8, 0)
    ensures Selected(WorstFit, DivergenceExample(), 8, 2)
  {
    var s := DivergenceExample();
    SumIsSpan(s);
    assert forall j :: 0 <= j < |s| && Fits(s[j], 8) ==> j == 0 || j == 2 || j == 4;
  }
}
