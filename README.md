# MPI graph benchmark: partitioning, replication and result shaping

The benchmark has two versions, Rust (`Prueba_1/src/main.rs`) and C++ (`C/grafo_mpi.cpp`).
Rank 0 generates a random graph as a list of edges `(u, v)`.
The benchmark then replicates the graph to every rank: it broadcasts the vertex and edge counts, then a flat buffer `u0, v0, u1, v1, …`, which every other rank regroups into pairs.
Each rank takes a contiguous run of at most `ceil(E / P)` edges (ranks at the tail take fewer or none) and computes one placeholder result (`1.0`) per edge.
Finally the benchmark exchanges those results twice: a gather-to-all into a buffer of `local_len * P` slots, and a sum all-reduce of `local_len` elements into a buffer of the same over-allocated size.

This project models that core in Dafny:

- `Outcomes` turns the source's failure modes into values: a Rust panic or C++ undefined behaviour becomes an `Err`.
- `Graphs` holds the edge and graph records.
- `Generator` models `generate_graph`. The random source is an oracle `draw`, where `draw(k)` is the raw k-th draw.
- `Partitioner` models `parallel_partition`, once as written and once with the start index clamped. It proves what the clamped form guarantees: coverage, single ownership, and balance exactly when P divides E.
- `Replication` models flattening and rebuilding the edge list, as functions (Rust) and as array loops (C++). It proves that every rank ends with rank 0's graph.
- `Collectives` models the MPI collectives the benchmark calls (broadcast, gather-to-all, sum all-reduce). Each is a pure function of what every rank passes in. A call whose ranks disagree on the element count fails with `CountMismatch`.
- `Aggregation` models the local results, the gather and the reduce buffers, and relates them to the partitions.
- `Arith` holds small arithmetic lemmas.

The buffer rules follow the MPI-3.1 standard: section 5.4 (Broadcast), section 5.7 (Gather-to-all) and section 5.9.6 (All-Reduce).

Two behaviours of the code differ from what the benchmark is meant to do, and the model follows the code:

- A rank past the tail is meant to get an empty partition. For E=3 and P=5, however, rank 4 starts at index 4 of a 3-edge list. The Rust slice panics there, and the C++ iterator range is undefined. `Partitioner.PartitionAsWritten` faults for that rank, and `Partitioner.Partition` is the clamped version.
- The reduce result is meant to be the element-wise sums, `[2.0] × 5` for E=10 and P=2. The code allocates `local_len * size = 10` slots and reduces only the first 5, so only the first `local_len` slots of the buffer carry sums and the other five stay `0.0` (`Aggregation.TenEdgesTwoRanksReduce`).

## Model

| member | source | states |
|---|---|---|
| Generator.GenerateGraph | Prueba_1/src/main.rs:42-51 | Succeeds exactly when no edge is requested or there is at least one vertex; otherwise `gen_range(0..0)` panics (`EmptyRange`). On success it returns exactly `num_edges` edges, `vertices == num_vertices`, every endpoint below `num_vertices`, and edge `i` built from draws `2i` and `2i+1` reduced into `[0, V)`. |
| Generator.GenerateGraphLoop | C/grafo_mpi.cpp:24-32 | The `emplace_back` loop, given at least one vertex whenever an edge is drawn (`rand() % 0` is undefined), yields `num_edges` edges, `vertices == num_vertices` and every endpoint below `num_vertices`. With the two `rand()` calls of each edge taken left to right, it builds the same graph as the Rust generator from the same draws. |
| Partitioner.ChunkIsCeiling | Prueba_1/src/main.rs:22 | `(E + size - 1) / size` is the ceiling of `E / size`: `chunk * size` covers E, `(chunk - 1) * size` does not, `chunk <= E`, and the chunk is positive exactly when E is (grafo_mpi.cpp line 38 is the same formula). |
| Partitioner.PartitionAsWritten | Prueba_1/src/main.rs:21-25 | The unclamped slice `edges[rank*chunk .. min(rank*chunk + chunk, E)]` is defined exactly when `rank * chunk <= E`. Otherwise it faults with `SliceOutOfRange(start, E)` and `start > E`; this models the Rust panic, and the C++ range at grafo_mpi.cpp lines 39-41 is undefined there. |
| Partitioner.AsWrittenFaultsPastTail | C/grafo_mpi.cpp:37-42 | For E=3 and P=5 the chunk is 1. Rank 3 (start == E) gets the empty slice, and rank 4 (start 4 > 3) faults. |
| Partitioner.Partition | Prueba_1/src/main.rs:21-25 | The clamped partition is never longer than the chunk and ends within the edge list. |
| Partitioner.ClampAgreesWithSource | C/grafo_mpi.cpp:39-41 | Wherever `rank * chunk <= E`, the source's slice is defined and equals the clamped partition. Wherever `rank * chunk >= E`, the clamped partition is empty, including a rank that starts exactly at the end. |
| Partitioner.PartitionElements | Prueba_1/src/main.rs:23-25 | Element `i` of a partition is edge `Lo + i`, where `Lo = min(rank * chunk, E)`: the partition is a contiguous run of the edge list. |
| Partitioner.PartitionLength | C/grafo_mpi.cpp:38-41 | The partition holds `min(Lo + chunk, E) - Lo` edges. |
| Partitioner.AssembledPrefix | Prueba_1/src/main.rs:21-25 | The partitions of ranks `0 .. k-1`, concatenated in rank order, are the first `min(k * chunk, E)` edges. |
| Partitioner.PartitionsCoverEdges | Prueba_1/src/main.rs:21-25 | The partitions of ranks `0 .. size-1`, concatenated in rank order, are exactly the edge list. |
| Partitioner.OwnedByQuotient | Prueba_1/src/main.rs:22-24 | For a positive chunk, index `i < E` lies in the range of rank `i / chunk` and of no other rank. |
| Partitioner.EachIndexHasOneOwner | C/grafo_mpi.cpp:38-40 | Every edge index lies in exactly one rank's partition, and that rank is below `size`. |
| Partitioner.ExactChunks | Prueba_1/src/main.rs:22-24 | When `size` divides E, `chunk * size == E` and every rank holds a full chunk. |
| Partitioner.LastRankShort | C/grafo_mpi.cpp:38-40 | When the chunks over-cover the edge list, rank 0 holds a full chunk and the last rank holds fewer edges. |
| Partitioner.BalancedIffDivisible | Prueba_1/src/main.rs:22-25 | All ranks hold the same number of edges exactly when `size` divides E. |
| Partitioner.TenEdgesTwoRanks | Prueba_1/src/main.rs:21-25 | E=10, P=2: chunk 5, partitions `[0,5)` and `[5,10)`. |
| Partitioner.SevenEdgesThreeRanks | C/grafo_mpi.cpp:37-42 | E=7, P=3: chunk 3, partitions `[0,3)`, `[3,6)` and `[6,7)` (sizes 3, 3, 1). |
| Partitioner.ThreeEdgesFiveRanks | Prueba_1/src/main.rs:21-25 | E=3, P=5 with the clamp: chunk 1, three single-edge partitions, then two empty ones. |
| Replication.Resize | Prueba_1/src/main.rs:81-83 | `Vec::resize`: the result has length `n`, keeps the old elements below `n`, and fills the rest with the fill value. |
| Replication.Flatten | Prueba_1/src/main.rs:86 | The flat buffer has length `2 * E`, with `flat[2i] == edges[i].u` and `flat[2i+1] == edges[i].v`. |
| Replication.Unflatten | Prueba_1/src/main.rs:92 | `chunks(2)` on an even-length buffer yields `|flat| / 2` edges, with edge `i` equal to `(flat[2i], flat[2i+1])`. |
| Replication.UnflattenFlatten | Prueba_1/src/main.rs:86-92 | Regrouping the flattened edge list gives back the edge list. |
| Replication.FlattenUnflatten | Prueba_1/src/main.rs:86-92 | Flattening the regrouped even-length buffer gives back the buffer. |
| Replication.PlaceholderPayload | Prueba_1/src/main.rs:81-86 | A non-root rank's `num_edges` placeholder edges `(0, 0)` flatten to `2 * num_edges` zeros, as long as the root's payload. |
| Replication.ReplicateRust | Prueba_1/src/main.rs:63-93 | On every rank, after the count broadcasts, the resize, the flat-buffer broadcast and the `chunks(2)` rebuild, the graph equals rank 0's graph. The payload broadcast is well formed because the buffer lengths agree. |
| Replication.FlattenInto | C/grafo_mpi.cpp:87-93 | After the index loop, the `2 * num_edges` buffer holds `edges[i].first` at `2i` and `edges[i].second` at `2i+1`, which is the flat encoding. |
| Replication.Rebuild | C/grafo_mpi.cpp:97-102 | After `clear()` and the `emplace_back` loop, the edge list has `num_edges` entries, and entry `i` is `(flat[2i], flat[2i+1])`. |
| Replication.ReplicateCpp | C/grafo_mpi.cpp:67-102 | On every rank, after the broadcasts, the root's flatten loop and the non-root rebuild loop, the graph equals rank 0's graph. |
| Aggregation.LocalResults | Prueba_1/src/main.rs:101 | As many local results as partition edges, each the placeholder `1.0` (grafo_mpi.cpp line 109 is the same). |
| Aggregation.LocalVectors | C/grafo_mpi.cpp:108-109 | Every rank contributes one local result vector, computed over its clamped partition. |
| Aggregation.GatherResults | Prueba_1/src/main.rs:32-36 | The gather with buffer `local_len * size` and count `local_len` is well formed exactly when every rank's vector has this rank's length. It then yields `local_len * size` values, which are the rank-ordered concatenation (grafo_mpi.cpp lines 47-52 are the same). |
| Aggregation.ReduceBenchmark | C/grafo_mpi.cpp:124-126 | The reduce is well formed exactly when the lengths agree. Its buffer has `local_len * size` slots; slot `i < local_len` holds the sum over ranks of element `i`, and the other slots stay `0.0` (main.rs lines 115-116 are the same). |
| Aggregation.SumOfPlaceholders | Prueba_1/src/main.rs:116 | Summing the placeholder `1.0` over every rank gives the number of ranks. |
| Aggregation.EqualLengthsIffBalanced | Prueba_1/src/main.rs:99-101 | The ranks' local vectors have equal lengths exactly when the partitions are balanced. |
| Aggregation.GatherOverPartitions | Prueba_1/src/main.rs:99-108 | Over the clamped partitions, the gather is well formed exactly when `size` divides E. It then holds one placeholder per edge of the graph. |
| Aggregation.ReduceOverPartitions | C/grafo_mpi.cpp:108-126 | Over the clamped partitions, the reduce is well formed exactly when `size` divides E. It then holds `size` in the first `E / size` slots and `0.0` in the rest of its E slots. |
| Aggregation.TenEdgesTwoRanksGather | Prueba_1/src/main.rs:99-108 | E=10, P=2: every rank's gather holds ten values of `1.0`. |
| Aggregation.TenEdgesTwoRanksReduce | Prueba_1/src/main.rs:114-116 | E=10, P=2: every rank's reduce buffer holds `2.0` five times, then `0.0` five times. |
| Aggregation.SevenEdgesThreeRanksGather | C/grafo_mpi.cpp:47-53 | E=7, P=3: the partition sizes 3, 3, 1 make the gather and the reduce ill formed on every rank, while the gather with per-rank counts delivers seven values of `1.0`. |
| Aggregation.LocalVectorsPrefixLength | Prueba_1/src/main.rs:99-101 | The local vectors of ranks `0 .. k-1` together hold as many results as their clamped partitions hold edges. |
| Aggregation.VaryingGatherOverPartitions | Prueba_1/src/main.rs:32-36 | Over the clamped partitions, a gather that takes each rank's own count delivers one placeholder per edge, for every E and every `size >= 1`. |
| Collectives.Broadcast | Prueba_1/src/main.rs:87 | The broadcast into the caller's buffer is well formed exactly when the caller's count equals the root's, and then delivers the root's data; otherwise `CountMismatch` (section 5.4 of MPI-3.1; grafo_mpi.cpp line 95 passes `num_edges * 2` on every rank). |
| Collectives.AllGatherInto | Prueba_1/src/main.rs:34 | The fixed-count gather is well formed exactly when every rank sends `recvCount` elements and the buffer holds `recvCount * size`. It then leaves the buffer's length unchanged, puts the rank-ordered concatenation in the first `recvCount * size` slots and leaves the rest untouched; otherwise `CountMismatch` (section 5.7 of MPI-3.1; grafo_mpi.cpp line 51 is the same call). |
| Collectives.AllReduceSumInto | Prueba_1/src/main.rs:116 | The sum all-reduce of `count` elements is well formed exactly when every rank sends `count` elements and the buffer holds at least `count`. It then leaves the buffer's length unchanged, puts the sum over ranks of element `i` in slot `i < count` and leaves every later slot untouched; otherwise `CountMismatch` (section 5.9.6 of MPI-3.1; grafo_mpi.cpp line 125 is the same call). |
| Collectives.ConcatUniform | C/grafo_mpi.cpp:50-52 | With every rank sending `len` elements, the concatenation holds `len * size` elements, which fills the resized buffer. |
| Collectives.ConcatUniformAt | Prueba_1/src/main.rs:33-34 | With every rank sending `len` elements, rank `k`'s element `i` lands at `k * len + i` (the block layout of section 5.7 of MPI-3.1). |
| Collectives.ConcatConstant | Prueba_1/src/main.rs:101-108 | If every contributed element is `x`, every gathered element is `x`. |
| Collectives.ConcatAt | C/grafo_mpi.cpp:51-52 | Rank `k`'s element `i` lands right after the blocks of ranks `0 .. k-1`. |
| Collectives.ConcatDisplacements | Prueba_1/src/main.rs:34 | The concatenation holds every contributed element, and each rank's block sits at the running total of the earlier blocks. |
| Collectives.AllGatherVarying | Prueba_1/src/main.rs:34 | The corrected gather with per-rank counts (the varying-count form of section 5.7 of MPI-3.1): its length is the total of all counts, and every rank's block lands at its displacement. |

## Left out

- MPI lifecycle and transport: initialisation, finalisation, rank and size queries, and the blocking and synchronisation of the real collective calls. The collectives are pure functions of every rank's input (`Collectives`). A collective is seen from one rank with all ranks' contributions supplied.
- The scalar broadcasts of the vertex and edge counts are taken as delivering rank 0's values. The C++ `vertices` field on non-root ranks is uninitialised before its broadcast; the model has no uninitialised state.
- Randomness: `thread_rng`, `gen_range`, `srand(time(nullptr))` and `rand()` are replaced by the oracle `draw`. The model does not capture how either library maps raw draws into a range (`gen_range` is not a bare `%`), nor seeding or the bound of `rand()`.
- Timing and metrics: the clocks and the latency and bandwidth formulas (main.rs lines 123-125, grafo_mpi.cpp lines 129-137).
- Console output, including the display count `min(global_results.len, local_partition.len)`, and the compiled-in sizes 200,000 and 1,000,000.
- Floating point: result values are `real`, so IEEE rounding of the sums is not modelled. The sums are of small integers and exact in practice.
- Machine integers: `usize`/`size_t` are unbounded `nat`, so `rank * chunk_size` and `num_edges * 2` cannot wrap. The C++ `int rank, size` are taken as non-negative, with `size >= 1`.
- Generator.GenerateGraphLoop: C++ leaves unspecified the order in which the two `rand() % num_vertices` arguments of `emplace_back` are evaluated (grafo_mpi.cpp line 29), and compilers commonly evaluate them right to left. The model fixes the order to left to right, so edge `i` is `(draw(2i) % V, draw(2i+1) % V)`. Under the other order the two endpoints of every edge swap roles. The edge count and the endpoint bound hold either way.
- Aggregation.LocalVectors, Aggregation.GatherOverPartitions, Aggregation.ReduceOverPartitions, Aggregation.VaryingGatherOverPartitions, Aggregation.LocalVectorsPrefixLength: these build the local results over the clamped `Partitioner.Partition`, while the source calls the unclamped partitioner (main.rs line 99, grafo_mpi.cpp line 108). The two agree wherever the unclamped slice is defined (`Partitioner.ClampAgreesWithSource`). Where it faults, the source panics, or is undefined, before any collective runs, and these lemmas do not describe that run.
- Replication.ReplicateRust, Replication.ReplicateCpp: each models one rank with rank 0's graph as a parameter. They do not capture that the ranks run concurrently.
- Partitioner.PartitionAsWritten: its contract states only when the slice is defined and how it faults. Its contents follow from `Partitioner.ClampAgreesWithSource` and the lemmas about `Partitioner.Partition`.
- Collectives.ConcatUniform: states only the length; the per-element layout is `Collectives.ConcatUniformAt`, one index at a time.

## Findings

| source | as written | input that shows it | evidently intended | confidence | as-written member | corrected member |
|---|---|---|---|---|---|---|
| Prueba_1/src/main.rs:23-25 | `start = rank * chunk_size` is not clamped, so the slice `edges[start..end]` panics when `start > end = len` | E=3, P=5, rank 4: chunk 1, start 4, end 3 | every rank gets a (possibly empty) contiguous slice, and the slices cover the edge list | high; not executed | Partitioner.AsWrittenFaultsPastTail | Partitioner.PartitionsCoverEdges |
| C/grafo_mpi.cpp:39-41 | `edges.begin() + start` past `end()` builds an invalid iterator range | E=3, P=5, rank 4: start 4 on a 3-edge vector | the same clamped partition as above | high; not executed | Partitioner.PartitionAsWritten | Partitioner.Partition |
| Prueba_1/src/main.rs:32-35 | each rank passes its own `local_results.len()` as the count of a fixed-count gather, so the counts disagree when the partitions are uneven (grafo_mpi.cpp lines 47-52 do the same) | E=7, P=3: local lengths 3, 3, 1 | a gather that delivers every rank's results whatever the partition sizes | high; not executed | Aggregation.SevenEdgesThreeRanksGather | Aggregation.VaryingGatherOverPartitions |
