# Best-fit / worst-fit allocator simulator

A Dafny model of the memory-allocation simulator in `src/best_worst_fit.c`.
The simulator manages an arena of 1024 units as an ordered list of chunks.
Each chunk has a status (free or occupied), a start address and a size.

The model covers these operations:

- Two placement searches. Best fit picks the free chunk with the least slack. Worst fit picks the one with the most. Ties go to the earliest chunk.
- Allocation. An exact fit is flipped to occupied. A larger chunk is split into an occupied piece and a shrunk free remainder.
- Release. The chunk at an address is freed and merged with free neighbours.
- Set-up, with one free chunk spanning the arena.
- Inspection, which counts the free chunks and totals their size.
- The driver that issues a random workload against one list.

Modules, one file each:

- `Wrappers` (`wrappers.dfy`): the `Option` type. `None` stands for the list's sentinel node, the answer "not found".
- `Arena` (`arena.dfy`): chunks, sums and filters over a list, and the live set. The live set holds the addresses of the occupied chunks. The module also defines the list invariants and the lemmas about them.
  - Positions of a well-formed list are contiguous from address 0.
  - Every size is positive.
  - The sizes sum to 1024.
  - No two adjacent chunks are both free.
- `FitSearch` (`fit_search.dfy`): the two searches as loops, proved against declarative definitions of the best and the worst fit.
- `Allocator` (`allocator.dfy`): the chunk list as a class `ChunkList` whose `chunks` field its methods reassign.
  - `Allocate` and `Release` are proved against the pure functions `Split` and `Coalesce`.
  - Lemmas show that those functions keep the invariants and update the live set exactly.
  - The ghost functions `Allocation` and `Freed` say which chunk each operation picks, so the methods' results are fully determined by the old list.
- `Simulator` also defines the ghost functions `Step` and `Run`: the list and recorded addresses that a sequence of draws produces.
- `Simulator` (`simulator.dfy`): the workload driver, the inspection loop, one trial, and releasing every allocation.

The list library is not part of this model. Its `dlist_insert` is taken to insert before its position. Only then does the split at lines 83-86 keep the list in address order: the occupied piece starts at the old address, and the shrunk free remainder starts right after it.

## Model

| member | source | states |
|---|---|---|
| Arena.InitialWellFormed | src/best_worst_fit.c:160-173 | the single free chunk at address 0 of size 1024 satisfies every list invariant |
| Arena.ChunksInArena | src/best_worst_fit.c:15-19 | every chunk of a well-formed list lies inside the arena: 0 <= address < address + size <= 1024 |
| Arena.AddressesIncrease | src/best_worst_fit.c:15-19 | in a gapless list of positive sizes, a chunk ends at or before the start of every later chunk, so addresses strictly increase and chunks never overlap |
| Arena.StartIsPrefixSum | src/best_worst_fit.c:15-19 | in a gapless list from address 0, a chunk's address is the total size of the chunks before it |
| Arena.SumIsSpan | src/best_worst_fit.c:15-19 | the sizes of a gapless list add up to the distance from the first chunk's address to the last chunk's end |
| Arena.FilterPartition | src/best_worst_fit.c:175-187 | the free and occupied chunks partition the list: their counts add to the list length and their sizes to the list total |
| Arena.SpaceConserved | src/best_worst_fit.c:175-187 | in a well-formed list, free size plus occupied size is exactly 1024, and the free total lies between 0 and 1024 |
| Arena.FreeChunksBound | src/best_worst_fit.c:105-124 | when no two neighbours are both free, there are at most as many free chunks as occupied ones, plus one if the last chunk is free |
| Arena.LiveCount | src/best_worst_fit.c:89 | in a gapless list of positive sizes, occupied chunks have distinct addresses: the live set has exactly one address per occupied chunk |
| Arena.FullReclaim | src/best_worst_fit.c:92-125 | a well-formed list with no occupied chunk is the single free chunk spanning the whole arena |
| FitSearch.SearchBestFit | src/best_worst_fit.c:23-41 | finds nothing exactly when no free chunk is large enough; otherwise returns a fitting free chunk whose slack is minimal, and every earlier fitting chunk has strictly more slack |
| FitSearch.SearchWorstFit | src/best_worst_fit.c:43-61 | finds nothing exactly when no free chunk is large enough; otherwise returns a fitting free chunk whose slack is maximal, and every earlier fitting chunk has strictly less slack |
| FitSearch.Search | src/best_worst_fit.c:63-64 | the search the strategy names: nothing exactly when no chunk fits, else the chunk that strategy selects |
| FitSearch.SelectedUnique | src/best_worst_fit.c:31-35 | the strict comparison makes the selected chunk unique: two indices that both meet a strategy's definition are equal |
| FitSearch.FitStrategiesDiverge | src/best_worst_fit.c:23-61 | there is a well-formed list on which best fit and worst fit choose different chunks for the same 8-unit request |
| FitSearch.BestFitExists | src/best_worst_fit.c:23-41 | whenever some free chunk can hold the request, a best fit exists |
| FitSearch.WorstFitExists | src/best_worst_fit.c:43-61 | whenever some free chunk can hold the request, a worst fit exists |
| FitSearch.SelectedExists | src/best_worst_fit.c:63-66 | whenever some free chunk can hold the request, each strategy selects a chunk, so the search answers "not found" only when nothing fits |
| Allocator.Carve | src/best_worst_fit.c:71-84 | what a fitting chunk becomes: one occupied chunk on an exact fit, else an occupied chunk of the requested size at its address followed by the rest with its old status. The pieces span exactly the old chunk, and their sizes add up to its size |
| Allocator.Split | src/best_worst_fit.c:71-87 | an exact fit marks only the chosen chunk occupied; otherwise the list gains one chunk: an occupied chunk of the requested size at the old address, then the free remainder starting right after it, with every other chunk unchanged and kept in order |
| Allocator.SplitWellFormed | src/best_worst_fit.c:63-90 | allocating a positive size from a free chunk that fits keeps all list invariants |
| Allocator.CarveLive | src/best_worst_fit.c:71-87 | carving a request out of a free chunk makes exactly its start address live |
| Allocator.SplitLive | src/best_worst_fit.c:63-90 | allocating from a free chunk adds exactly that chunk's start address to the live set |
| Allocator.Coalesce | src/best_worst_fit.c:102-124 | release replaces the freed chunk and its free neighbours by one free chunk. It starts where the first of them starts and its size is their total. The chunks before and after are kept, in order |
| Allocator.RunTotal | src/best_worst_fit.c:108-119 | the size the release builds up, one absorbed neighbour at a time, is the total size of the merged run |
| Allocator.CoalesceWellFormed | src/best_worst_fit.c:102-124 | releasing a chunk of a well-formed list keeps all list invariants, and the merged chunk ends where the last merged neighbour ended |
| Allocator.RunLive | src/best_worst_fit.c:105-124 | the run of chunks merged by a release holds no live address other than that of the released chunk |
| Allocator.CoalesceLive | src/best_worst_fit.c:92-125 | releasing a chunk removes exactly its address from the live set |
| Allocator.ReleaseUndoesAllocate | src/best_worst_fit.c:63-125 | on a well-formed list, releasing the chunk just allocated from a fitting free chunk gives back exactly the list as it was before the allocation |
| Allocator.UndoBetweenOccupied | src/best_worst_fit.c:63-125 | the same round trip holds for any fitting free chunk whose neighbours are occupied |
| Allocator.UndoCarve | src/best_worst_fit.c:71-124 | merging back the pieces carved out of a free chunk, between occupied neighbours, restores that chunk and leaves the rest alone |
| Allocator.ReleaseFreeIsNoOp | src/best_worst_fit.c:102-124 | on a well-formed list, releasing a chunk that is already free changes nothing |
| Allocator.FindAddress | src/best_worst_fit.c:93-100 | finds nothing exactly when no chunk starts at the address; otherwise returns the first chunk that does |
| Allocator.FirstAtExists | src/best_worst_fit.c:93-100 | when some chunk starts at an address, there is a first one, which the scan stops at |
| Allocator.FreedAt | src/best_worst_fit.c:92-125 | releasing an address merges at the first chunk that starts there |
| Allocator.AllocationAt | src/best_worst_fit.c:63-90 | allocation splits exactly the chunk the strategy selects and answers its address |
| Allocator.ChunkList.constructor | src/best_worst_fit.c:160-173 | a new list holds one free chunk at address 0 spanning the arena, and is well-formed |
| Allocator.ChunkList.Allocate | src/best_worst_fit.c:63-90 | the new list and the answer are `Allocation` of the old list: -1 and no change when nothing fits, otherwise the chunk the strategy selects is split and its address returned. On a well-formed list with a positive size it keeps the invariants. The returned address was not live before and is added to the live set |
| Allocator.ChunkList.Release | src/best_worst_fit.c:92-125 | the new list is `Freed` of the old one: no change when no chunk starts at the address, otherwise the first such chunk is freed and merged. On a well-formed list it keeps the invariants and removes exactly that address from the live set |
| Simulator.RequestSize | src/best_worst_fit.c:151-153 | every request is between 1 and 70 units |
| Simulator.RemoveUnordered | src/best_worst_fit.c:145 | removing one position leaves one element fewer: exactly one occurrence of that element is gone and nothing else changes |
| Simulator.InspectResults | src/best_worst_fit.c:175-187 | the count is the number of free chunks and the total is the sum of their sizes |
| Simulator.SimulateActivity | src/best_worst_fit.c:137-158 | the new list and recorded addresses are `Run` of the old ones over the draws: each draw is one `Step`, a release of the chosen recorded address or an allocation of `RequestSize` units. After any workload the list stays well-formed and the recorded addresses are exactly the live allocations, each recorded once |
| Simulator.Trial | src/best_worst_fit.c:203-213 | `final` and `live` are what the draws produce from the initial arena. That list is well-formed, and the count and total are those of its free chunks. So the free total lies between 0 and 1024 and is zero exactly when no chunk is free, and there is at most one more free chunk than live allocations |
| Simulator.ReleaseAll | src/best_worst_fit.c:92-125 | releasing every live allocation, in any order, gives back the single free chunk spanning the arena |

## Left out

- Printing (`print_list`, the output in `inspect_results` and `launch_simulator`) is left out, as is the floating-point average of the free-chunk size. That includes the division by zero when no chunk is free. `Simulator.InspectResults` returns the count and the total the average is computed from.
- The ten-trial loop and the averaging in `launch_simulator`, and the entry points `best_fit_simulator` and `worst_fit_simulator`, are left out. `Simulator.Trial` models one iteration.
- `release_resources` and all `malloc`/`free` calls are left out. Memory and node identity are not modelled. Chunks are values in a sequence, and positions in the list are indices.
- The list and vector libraries (`dstruct/dlinked_list.h`, `dstruct/vector.h`) are not part of this model.
  - `dlist_insert` is taken to insert before its position.
  - `vector_remove_unordered` is taken to move the last element into the removed slot and then shorten the vector.
- `random_number` is not part of this model. Its values become the `Draw` parameters of the driver and are non-negative. The workload length is left free, where the source uses 1000 steps.
- `INT_MAX` and `INT_MIN` as the searches' starting slack are not modelled. The model's searches treat the first fitting chunk as the current choice. The C code would skip a best-fit chunk whose slack is exactly `INT_MAX`. Only a request of 1024 - `INT_MAX` units or less gives such a slack, and the driver requests 1 to 70 units.
- Machine integers are not modelled: sizes and addresses are unbounded integers. No value in a 1024-unit arena comes near the 32-bit range.
- `Allocator.ChunkList.Release` assigns the merged list once. The C code removes each absorbed neighbour node in turn. The resulting list is the same.
- `Allocator.ChunkList.Allocate` promises to keep the invariants and to update the live set only for positive sizes. A request of 0 units would split off an empty occupied chunk. Every request the driver makes is between 1 and 70 units.
