# Gorilla staging: a verified model

Gorilla stages N-dimensional mesh data. The ranks of a simulation put boxes of
cells into data servers, metadata servers remember which server holds which box,
and analytics read back an arbitrary box (M:N put and get). This project models
the geometry, index and protocol code below the RPC layer, the simulation that
feeds it and the small components around it, in Dafny 4.11, and proves what that
code is for.

The chain of main results, from writer to reader:

1. `HaloRuns.EveryRunIsGlobal`: in every interleaving of the Gray-Scott ranks, a
   rank that has finished t iterations holds, in every interior cell, the value
   of t steps of the stencil on the periodic global cube.
2. `GrayScott.EveryPutIsGlobal` and `Pipeline.PutIsTrusted`: the ghost-free block
   that rank puts holds those values at the positions the servers will use.
3. `Get.RegisterBlock` and `Pipeline.PublishAll`: registration reaches exactly
   the metadata servers that the put is told of, which are those whose partition
   the block meets when no address is missing (`Get.ListIsMeeting`).
4. `Get.GetArbitraryData`: for any arrivals around its requests, the reader does
   exactly what the lists that its servers come to answer from decide: it fails at
   the first that lists a block meeting the query in its last corner alone, waits
   for the first whose share no request finds covered, and otherwise returns the
   field at every listed cell.
5. `Pipeline.StorePut` and `Pipeline.PutThenGet` compose them: blocks of any
   interleaving of the ranks after t iterations, some registered before the reader
   starts and the others while it polls, read by any box of the cube, give t steps
   of the global field at every cell, or that failure, exactly when a block causes
   it.

Beside that chain: the Hilbert curve codec (both conversions, their round trips,
continuity of the curve and the comparator), the thread pool over all
interleavings, the metric ring buffer, the address gather and its parser, and the
AMReX advection kernels.

Each file is one component: `Boxes`, `Split`, `Coverage`, `Dht`, `Matrix`,
`Metadata`, `Reader` (what the reader promises), `Staging` (the deployed servers)
and `Get` follow the get pipeline; `BitWords`, `Gray`, `Hilbert`,
`HilbertCurve` and `HilbertOrder` the codec; `Lockstep`, `Decomposition`,
`Faces`, `Halo`, `HaloRuns`, `GrayScott` and `Pipeline` the simulation;
`ThreadPool`, `Metrics`, `AddrGather` and `Advection` the rest. Source code that
changes state is a class or a method with loops, proved against a specification
function; the lemmas are about that function. `dafny verify dfyconfig.toml`
verifies everything.

## Where the code falls short of its intent

The model keeps the code's behaviour, and each shortfall has its exact condition.

- One axis: `splitReduceBBX` has no 1-D branch, so a 1-D query that one block
  merely touches is reported covered. The coverage test is right for every list of
  blocks exactly when the query has 2 or 3 axes or is a single cell
  (`Coverage.CoverageExactIff`, `Coverage.OneAxisDecision`). A one-axis reader can
  therefore be done too early: its matrix holds the field in the cells of listed
  blocks and unwritten values elsewhere (`Reader.ServerDeems`, `Get.GetArbitraryData`).
- `splitBound` and `splitReduceBBX` are right exactly when no axis of the query
  covers the bound while reaching beyond it (and, in 3-D, the query lies inside the
  box); `ifCovered` always calls them with the overlap, where they are right
  (`Split.SplitBoundExactIff`, `Split.SplitExactIff`).
- The "full overlap" shortcut of `getSubMatrix` compares the sub-box's lower corner
  with the whole's upper corner. It fires exactly for a sub-box that is the last
  corner cell and then copies the whole matrix into a one-cell buffer. The model
  reports that as the failure `CopyOverrun`; `Matrix.GetSubMatrix` and
  `Matrix.RawMemObj.GetDataSubregion` state it as an if-and-only-if, and
  `Get.GetArbitraryData` fails exactly at the first server whose list has such a
  block when it answers (`Get.FetchPieces` for one answer).
- A missing metadata server address makes `getmetaServerList` answer the part of the
  list before it. The list is complete exactly when every partition that meets the
  query has an address (`Get.GetMetaServerList`), and a shortened one always leaves
  cells of the query out (`Get.SharesCoverIff`). The reader does not notice: it is
  done, with whatever the fresh buffer held in every cell that none of its servers
  lists (`Get.GetArbitraryData`), and with no more than that buffer when the first
  address is missing (`Reader.NoneTold`). A put in the same position registers its
  block with the shortened list only.
- The ceiling chunk of `init_mpi` leaves the last rank without cells exactly when
  (np - 1) * ceil(L / np) >= L (`Decomposition.AxisSplitsIff`, with L = 5 on 4 ranks).
- A thread pool of no workers accepts tasks and never runs them; every accepted task
  runs exactly once before the destructor returns exactly when there is a worker
  (`ThreadPool.AllRanIffWorkers`).
- The ring throws with its mutex held when it removes from an empty ring or meets
  the empty-slot value in `getLastN`; later calls would block. The `locked` field
  models this, and `Ring.StuckIff` says which runs get there.
- The gather format loses addresses that are empty, contain 'E' or have 100 or more
  characters (`AddrGather.GatherIff`). It also depends on the rest of the 200-byte
  send buffer, which comes from `malloc` and is never cleared: leftover bytes that
  end in "Hx" break the list of one address (`AddrGather.LeftoverBreaksGather`). For addresses of the
  right shape the list comes back exactly when the leftover bytes of every rank are
  harmless, which for instance holds when each 'H' among them is followed by 'E'
  (`AddrGather.LeftoverIff`, `AddrGather.GatherIP`); the code does not establish it.

## Modelling decisions

- Coordinates are padded to three entries with 0 in unused axes, as the source pads
  its index arrays. Box coordinates are unbounded integers; where the source casts
  to `size_t` or relies on 32-bit values the model writes the cast or the bound out
  (`SizeT`, `Int32Point`).
- Array elements have an arbitrary type: the copies move whole elements and never
  look inside. `ceil` of a double quotient is modelled as exact integer ceiling.
- An RPC is a direct call. The reader's unbounded retry loop is a finite schedule of
  polls per server, each with the registrations that arrive between the two lookups
  of a request and those since the request before it; `Waiting` is the outcome of a
  schedule that ends too early.
- Each metadata lookup is one step: the source releases its mutex between the
  existence tests and the read, and its outcome is that of a single step at the last
  of them, because entries are only added.
- Bit words are natural numbers without a width, with the C operators defined digit
  by digit. The 64-bit program behaves the same while nDims * nBits <= 63 and
  nDims <= 30 (its masks are `int` shifts).
- MPI is a library: `MPI_Sendrecv` is a send followed by a receive over FIFO channels
  (MPI 3.1, sections 3.5 and 3.10), a vector datatype is a strided selection
  (section 4.1.2) and `MPI_Cart_shift` is the periodic neighbour (section 7.5.6).
- The per-cell update is an arbitrary function of a cell and its six neighbours and
  one random sample, so floating point plays no role; the random generator is a
  function of the time step and the global cell. The reaction-diffusion formula and
  the advection kernels are also given over the reals.
- The condition variable may wake spuriously. A task is assumed to return.

## Model

| member | source | states |
|---|---|---|
| Boxes.GetElemNum | utils/bbxtool.h:203-211 | The element count is the product of the extents of the used axes. |
| Boxes.GetPhysicalIndex | utils/bbxtool.h:230-252 | Throws for a wrong dimension or a coordinate outside the box, otherwise answers the row-major position. |
| Boxes.IndexInRange | utils/bbxtool.h:230-252 | Every cell's position lies inside the allocation of getElemNum elements. |
| Boxes.IndexInjective | utils/bbxtool.h:230-252 | No two cells of a box share a position. |
| Boxes.IndexSurjective | utils/bbxtool.h:230-252 | Every position of the allocation belongs to a cell: with the two lemmas above the index is a bijection. |
| Boxes.GetOverlapBBX | utils/bbxtool.h:286-328 | Exception, NULL or the box of the axis-wise overlaps. |
| Boxes.OverlapIsIntersection | utils/bbxtool.h:272-328 | The overlap exists exactly when two proper boxes share a cell, and holds exactly the shared cells. |
| Split.SplitBoundExactIff | utils/bbxtool.h:48-81 | splitBound tiles the bound and contains the overlap exactly when the query does not cover one side while reaching beyond the other. |
| Split.SplitBoundInside | utils/bbxtool.h:48-81 | For a query inside the bound: at most three non-empty, ordered, contiguous pieces, one of them the query. |
| Split.SplitReduceBBX | utils/bbxtool.h:348-411 | The nested loops produce the grid of pieces without the skipped one, with the source's errors and its missing 1-D branch. |
| Split.GridCarves | utils/bbxtool.h:361-405 | A grid of three tilings without one cell: pairwise disjoint, union is the box minus that cell, volumes and count add up. |
| Split.SplitConserves | utils/bbxtool.h:348-411 | An overlap inside a 2-D or 3-D box is cut out exactly: at most 3^dims - 1 non-empty, disjoint boxes, exact union, conserved element count. |
| Split.SplitExactIff | utils/bbxtool.h:348-411 | For all proper boxes that meet, the result is the remainder exactly when a condition on the two boxes holds, axis by axis and for 1, 2 and 3 axes. |
| Coverage.Visit | server/MetadataManager/metadataManager.cpp:231-268 | The body of the inner loop keeps, drops or splits the front box and pushes the result with the next status. |
| Coverage.CutLayer | server/MetadataManager/metadataManager.cpp:226-269 | One pass over the boxes that still carry the current status cuts each of them by the block; it terminates. |
| Coverage.IfCovered | server/MetadataManager/metadataManager.cpp:210-275 | The queue program computes the specified answer, with its exceptions, and terminates. |
| Coverage.LeftoverExact | server/MetadataManager/metadataManager.cpp:210-275 | After any number of blocks the queue's boxes are non-empty, pairwise disjoint, and their union is the query minus those blocks. |
| Coverage.CoverageDecision | server/MetadataManager/metadataManager.cpp:210-275 | In 2-D and 3-D the answer is true exactly when every cell of the query lies in a listed block. |
| Coverage.OneAxisDecision | server/MetadataManager/metadataManager.cpp:210-275 | In 1-D the queue empties exactly when some block meets the query. |
| Coverage.CoverageExactIff | server/MetadataManager/metadataManager.cpp:210-275 | For a given query the answer is right for every list of blocks exactly when the query has more than one axis or a single cell. |
| Dht.DHTManager.InitDHTManually | server/DHTManager/dhtmanager.cpp:255-329 | The triple loop stores the partition boxes under their IDs; lengths that differ are an error. |
| Dht.PartIDBijection | server/DHTManager/dhtmanager.cpp:285-320 | Partition IDs and grid positions are in bijection. |
| Dht.AxisTiling | server/DHTManager/dhtmanager.cpp:270-312 | Along one axis every coordinate lies in exactly one part, even when the ceiling span leaves inverted trailing parts. |
| Dht.PartitionsTile | server/DHTManager/dhtmanager.cpp:255-329 | Every cell of the domain lies in exactly one partition box. |
| Dht.DHTManager.GetMetaServerID | server/DHTManager/dhtmanager.cpp:333-350 | The loop collects, in ID order, the servers whose box overlaps the query and the overlaps. |
| Dht.PartMeetsIff | server/DHTManager/dhtmanager.cpp:333-350 | For an in-domain query the overlap test with a partition, inverted ones included, is exactly sharing a cell. |
| Dht.MetaServersTileQuery | server/DHTManager/dhtmanager.cpp:333-350 | The servers returned are exactly those whose box meets the query, and the clipped parts tile the query: each cell lies in exactly one. |
| Matrix.GetSubMatrix | utils/matrixtool.h:28-111 | Fails exactly for an inverted sub-box, one beyond the whole, or the last corner cell of a larger whole; otherwise every cell of the result is the whole's value there. |
| Matrix.ExtractAt | utils/matrixtool.h:28-111 | An extracted sub-box holds, for every coordinate, the value stored for it. |
| Matrix.ExtractTwice | utils/matrixtool.h:28-111 | Extracting a sub-box of a sub-box equals extracting it directly. |
| Matrix.CopyView | utils/matrixtool.h:176-238 | The contiguous row copies of one view overlay exactly the view's cells and touch no other cell. |
| Matrix.MatrixAssemble | utils/matrixtool.h:127-253 | The result is, cell by cell, the value of the last view that holds the cell, or the initial value where no view does. |
| Matrix.AssembledValue | utils/matrixtool.h:127-253 | When views agree on their cells, an assembled cell in some view has the common value. |
| Matrix.AssembleOrderFree | utils/matrixtool.h:127-253 | Views that agree where they overlap assemble to the same matrix in any order. |
| Matrix.RawMemObj.PutData | blockManager/rawmemobj/rawmemobj.cpp:17-34 | The first put stores a copy of the source; a second put is an error and changes nothing. |
| Matrix.RawMemObj.GetDataSubregion | blockManager/rawmemobj/rawmemobj.cpp:47-128 | Succeeds exactly for a proper sub-box of the block that is not just its last corner cell, and then holds for every coordinate the stored value; each exception has its condition. |
| Metadata.MetaDataManager.UpdateMetaData | server/MetadataManager/metadataManager.cpp:65-79 | The descriptor is appended under its key, every other list is unchanged, and the other types of a variable it makes known answer with an exception from then on. |
| Metadata.QueryAfter | server/MetadataManager/metadataManager.cpp:65-119 | After any run of updates from the empty map, a query answers the descriptors of its step, variable and type in arrival order; it throws exactly when the variable has arrivals of that step but none of that type. |
| Metadata.MetaDataManager.GetOverlapEndpoints | server/MetadataManager/metadataManager.cpp:125-205 | Answers one clipped descriptor per recorded block that meets the query, in order. |
| Metadata.EndpointMembers | server/MetadataManager/metadataManager.cpp:125-205 | A descriptor is answered exactly when it is the clip of a recorded block that meets the query. |
| Metadata.GetBlockDescriptorList | server/unimosserver.cpp:1356-1411 | The handler, with registrations arriving between its two lookups: the answer is computed from the two states it saw, and registrations are kept. |
| Metadata.ServerReady | server/unimosserver.cpp:1356-1411 | For a 2-D or 3-D query meeting the server's partition the answer is non-empty exactly when the server's share is covered by the first state, and then the clipped descriptors cover that share. |
| Get.GetMetaServerList | server/unimosserver.cpp:1271-1299 | The addresses of the responsible servers in ID order up to the first missing one; all of them exactly when none is missing; nothing on an exception. |
| Get.SharesCoverIff | server/unimosserver.cpp:1271-1299 | The shares whose servers the client is told of are clips of their partitions, and they hold every cell of the query exactly when every partition that meets it has an address. |
| Get.RegisterBlock | client/unimosclient.cpp:282-300 | The descriptor is recorded once at every server the put is told of, no other server changes, and a put that is told of none is an error. |
| Get.ListIsMeeting | server/unimosserver.cpp:571-597 | When no address is missing, a server is told about a block exactly when its partition meets the block. |
| Get.PollServer | client/ClientForSim.cpp:1053-1076 | The retry loop on one server stops at the first request whose first lookup finds the share covered: it has an answer exactly when there is such a request, whatever arrived before and between the requests, and the answer holds exactly the clips of the listed blocks that meet the query. |
| Reader.PolledIff | client/ClientForSim.cpp:1053-1076 | The loop specification ends with an answer exactly when some request comes late enough to find the share covered by what was listed at the start and what has arrived. |
| Get.FetchPieces | client/ClientForSim.cpp:1078-1127 | Fails exactly when a listed block meets the query in its last corner cell alone; otherwise the new views hold the field and show exactly the cells of the query in listed blocks. |
| Get.GetArbitraryData | client/ClientForSim.cpp:1038-1166 | Exactly what the reader does, from the list behind each server's last answer: fails, waits or is done, each as an if-and-only-if; a returned matrix holds the field at every cell some asked server lists and the fresh buffer's value elsewhere, so with two or three axes and no address missing the field at every cell; what each server lists afterwards. |
| Reader.ServerDeems | server/unimosserver.cpp:1356-1411 | For any number of axes a server's answer is non-empty exactly when its first lookup saw blocks that cover its share or, with one axis, a block that meets it. |
| Get.RegisteredMeansReady | server/unimosserver.cpp:469-485 | Blocks that cover the query make a server that the reader asks ready as soon as its list has those of them that were sent to it. |
| Reader.NoneTold | client/ClientForSim.cpp:1049-1054 | A reader whose list of servers is empty is done at once with an unwritten matrix. |
| Gray.GrayRoundTrip | utils/hilbert/hilbert.c:69-70 | The Gray code x ^ (x >> 1) and its decoding are inverse to each other. |
| Gray.DecodeLoop | utils/hilbert/hilbert.c:133-148 | The doubling-shift loop, with its two-step shifts, computes the full prefix xor and terminates. |
| Hilbert.AdjustRotation | utils/hilbert/hilbert.c:27-35 | The macro's two's-complement trick and shift loop compute the rotation determined by the lowest set bit. |
| Hilbert.HilbertI2C | utils/hilbert/hilbert.c:56-82 | The loops write exactly the specified coordinates, for every index and number of bits. |
| Hilbert.HilbertC2I | utils/hilbert/hilbert.c:104-149 | The loops compute exactly the specified index. |
| Hilbert.ChunkedOfWords | utils/hilbert/hilbert.c:37-38 | Level by level, rotating and reflecting back undoes reflecting and rotating. |
| Hilbert.IndexRoundTrip | utils/hilbert/hilbert.c:56-149 | hilbert_c2i undoes hilbert_i2c for every index below 2^(nDims * nBits). |
| Hilbert.CoordRoundTrip | utils/hilbert/hilbert.c:56-149 | hilbert_i2c undoes hilbert_c2i for every coordinate tuple, whose index is below 2^(nDims * nBits). |
| HilbertCurve.GrayChunks | utils/hilbert/hilbert.c:61-70 | The masked Gray code splits into per-level codes whose top bit is flipped by the level above; this is what nthbits is for. |
| HilbertCurve.EntryWords | utils/hilbert/hilbert.c:72-81 | Index zero inside a sub-cube is its entry corner at every level. |
| HilbertCurve.ExitWords | utils/hilbert/hilbert.c:72-81 | The last index inside a sub-cube is its exit corner at every level. |
| HilbertCurve.Crossing | utils/hilbert/hilbert.c:72-81 | The exit corner of a sub-cube and the entry corner of the next differ on exactly the axis that is crossed. |
| HilbertCurve.CurveStep | utils/hilbert/hilbert.c:72-81 | Two consecutive chunk lists lead to words that spell neighbouring cells. |
| HilbertCurve.HilbertAdjacency | utils/hilbert/hilbert.c:56-82 | The coordinates of index and index + 1 differ on exactly one axis, and by exactly 1 there. |
| HilbertOrder.HilbertCmp | utils/hilbert/hilbert.c:166-206 | Returns -1, 0 or 1 exactly as the indices of the two points, read as big-endian bytes, compare. |
| HilbertOrder.FirstDifference | utils/hilbert/hilbert.c:186-199 | Among indices whose levels agree up to some level, the first level that differs decides the order of the indices. |
| HilbertOrder.CarryIsParity | utils/hilbert/hilbert.c:198-200 | The parity of the collected xor and of the level equals the flip state that the nthbits mask would give. |
| HilbertOrder.FoldLoop | utils/hilbert/hilbert.c:192-197 | The fold loop computes the full prefix xor of a word below 2^nDims. |
| Lockstep.InterleavingFree | example/gssimulation/gray-scott.cpp:193-246 | Ranks that run matched send-receive steps over FIFO channels hold, in every reachable state of every interleaving, exactly the data of the lock-step execution. |
| Lockstep.NoDeadlock | example/gssimulation/gray-scott.cpp:193-246 | Until every rank has finished, some rank can move. |
| Decomposition.AxisSplitsIff | example/gssimulation/gray-scott.cpp:156-172 | All ranks of an axis get cells exactly when (np - 1) * ceil(L / np) < L. |
| Decomposition.BlocksTile | example/gssimulation/gray-scott.cpp:156-172 | Every cell of the cube lies in the declared box of exactly one rank. |
| Decomposition.L2IIsIndex | example/gssimulation/gray-scott.h:111-114 | l2i is the row-major index of the local box with ghosts. |
| Faces.FaceFits | example/gssimulation/gray-scott.cpp:178-190 | Every face datatype stays inside the local array at every plane it is used for. |
| Faces.FaceTransfer | example/gssimulation/gray-scott.cpp:193-235 | A face sent and received fills exactly the covered ghost cells with the sender's plane and leaves every other cell. |
| Halo.InteriorKept | example/gssimulation/gray-scott.cpp:193-246 | The exchange never changes an interior cell. |
| Halo.GhostFilled | example/gssimulation/gray-scott.cpp:193-246 | Once its step is done a face ghost holds the neighbour's interior cell and no later step touches it. |
| Halo.OriginGlobal | example/gssimulation/gray-scott.cpp:174-176 | The cell a face ghost comes from is the ghost's own cell on the periodic cube. |
| Halo.AroundIsGlobal | example/gssimulation/gray-scott.cpp:98-111 | The seven values a rank's stencil reads are those of the global torus: stale edge and corner ghosts are never read. |
| Halo.HaloMatched | example/gssimulation/gray-scott.cpp:174-246 | At each of the twelve steps of an iteration, sends and receives of neighbouring ranks match. |
| HaloRuns.Iterate | example/gssimulation/gray-scott.cpp:25-32 | Twelve send-receives and calc give exactly both exchanged fields, then the computed and swapped arrays. |
| HaloRuns.IterateIsGlobal | example/gssimulation/gray-scott.cpp:25-32 | One iteration of all ranks is one global step. |
| HaloRuns.DistributedIsGlobal | example/gssimulation/gray-scott.cpp:25-32 | Any number of iterations equals as many steps of the stencil on the global torus, for every process grid without an empty rank. |
| HaloRuns.EveryRunIsGlobal | example/gssimulation/gray-scott.cpp:25-32 | The same for every reachable state of every interleaving, rank by rank, without any barrier. |
| HaloRuns.ExchangeNeverDeadlocks | example/gssimulation/gray-scott.cpp:193-246 | No run of the ranks gets stuck before all iterations are done. |
| GrayScott.InsideIsOwned | example/gssimulation/gray-scott.h:89-109 | is_inside holds exactly for the cells a rank owns, and g2i inverts a cell's global position. |
| GrayScott.Simulation.constructor | example/gssimulation/gray-scott.cpp:156-172 | init_mpi and the allocation: sizes and offsets of the rank, four arrays of the local size with their initial values. |
| GrayScott.Simulation.InitField | example/gssimulation/gray-scott.cpp:65-86 | The seeding loops leave, in every interior cell, the value of one initial field that does not depend on the decomposition. |
| GrayScott.StartRank | example/gssimulation/gray-scott.cpp:19-86 | Setting up one rank leaves the initial field's value in every interior cell. |
| GrayScott.StartAll | example/gssimulation/gray-scott.cpp:19-86 | Setting up every rank of a grid gives ranks that together represent one initial field, which is the hypothesis of the simulation results. |
| GrayScott.Simulation.Calc | example/gssimulation/gray-scott.cpp:113-132 | The triple loop computes exactly the specified interiors and leaves the target arrays' ghosts. |
| GrayScott.Simulation.CalcAndSwap | example/gssimulation/gray-scott.cpp:25-32 | calc and the two swaps exchange the array pairs and give the specified contents. |
| GrayScott.Simulation.DataNoGhost | example/gssimulation/gray-scott.cpp:248-259 | Each output cell is written with the interior cell of its position; the output is the extract of the interior box. |
| GrayScott.NoGhostIndex | example/gssimulation/InSitu.cpp:296-301 | The output position of an interior cell is its position in the box the writer declares. |
| GrayScott.PutHoldsField | example/gssimulation/InSitu.cpp:289-301 | The ghost-free array holds the global field at the declared box's position of every cell. |
| GrayScott.EveryPutIsGlobal | example/gssimulation/InSitu.cpp:289-301 | In every run the block put after t iterations holds t global steps at every cell of the declared box. |
| GrayScott.RestIsFixed | example/gssimulation/gray-scott.cpp:88-132 | Without noise the state (1, 0) is at rest under the reaction-diffusion kernel for any number of steps. |
| Pipeline.PutIsTrusted | client/unimosclient.cpp:288-300 | The stored block of a rank meets the reader's hypothesis for the global field, whatever the ranks' interleaving. |
| Pipeline.PutsCover | example/gssimulation/InSitu.cpp:296-301 | The ranks' blocks cover every query inside the cube. |
| Pipeline.PublishAll | client/unimosclient.cpp:288-300 | After all puts every server lists, behind what it had, exactly the blocks it was told of, in order. |
| Pipeline.StorePut | example/gssimulation/InSitu.cpp:289-301 | The ghost-free copy of a rank's array, put into a new object of the data server, is what the reader's hypotheses ask of that object. |
| Pipeline.FedIsAnswered | client/ClientForSim.cpp:1053-1076 | A server that has, by the reader's last request, every put that was sent to it comes to answer. |
| Pipeline.ReaderFate | client/ClientForSim.cpp:1038-1166 | With such servers the reader never waits, and it fails exactly when some put meets the query in its last corner alone. |
| Pipeline.PutThenGet | client/ClientForSim.cpp:1038-1166 | Blocks of the ranks after t iterations of any interleaving, some registered before and some while the reader polls for any box of the cube: it never waits, gets t steps of the global field at every cell, or fails, exactly when a put meets the box in its last corner alone. |
| ThreadPool.RunInv | utils/ThreadPool.h:35-97 | Every reachable state of every schedule keeps mutual exclusion, FIFO accounting, the stop protocol and the wake-up bound. |
| ThreadPool.TakenInOrder | utils/ThreadPool.h:49-56 | Tasks leave the queue in the order they were accepted, each at most once. |
| ThreadPool.MutualExclusion | utils/ThreadPool.h:47-50 | Two workers are never in the critical section at once. |
| ThreadPool.KeepsWakeups | utils/ThreadPool.h:49-83 | While a worker sleeps, every queued task has a notification or an awake worker on its way, and after stop a notify_all is due; every step keeps this. |
| ThreadPool.NeverAllAsleep | utils/ThreadPool.h:49-83 | With a non-empty queue or stop set, the workers are never all asleep without a notification outstanding. |
| ThreadPool.NoDeadlock | utils/ThreadPool.h:35-97 | While tasks are queued or the destructor has not returned, the pool can make progress without any further call, of enqueue or of the destructor, and without a spurious wake-up: no wake-up is lost. |
| ThreadPool.QueueDrains | utils/ThreadPool.h:35-97 | Under schedules without new calls, spurious wake-ups included, a queue stays non-empty only for a bounded number of steps, and until then a step other than a spurious wake-up or the destructor's call is always possible. |
| ThreadPool.ShutdownBounded | utils/ThreadPool.h:88-97 | After stop, schedules without new calls are bounded, and unless all workers are joined some step other than a spurious wake-up remains: the destructor returns. |
| ThreadPool.AllRanWhenJoined | utils/ThreadPool.h:88-97 | When the joins finish (with at least one worker) every accepted task has run exactly once and the queue is empty. |
| ThreadPool.AllRanIffWorkers | utils/ThreadPool.h:35-97 | That holds for all schedules exactly when the pool has a worker. |
| Ring.CircularArray.constructor | metricManager/circularDoubleArray.hpp:27-42 | An empty ring of slotNum slots. |
| Ring.CircularArray.AddElement | metricManager/circularDoubleArray.hpp:53-99 | Appends, dropping the oldest value when slotNum - 1 are stored. |
| Ring.CircularArray.BufferLen | metricManager/circularDoubleArray.hpp:171-191 | The number of stored values. |
| Ring.CircularArray.GetLastN | metricManager/circularDoubleArray.hpp:101-132 | The last n stored values in order, or the exception that applies; the mutex stays locked exactly when an empty-slot value is met. |
| Ring.CircularArray.GetAll | metricManager/circularDoubleArray.hpp:134-138 | All stored values in order; an exception for an empty ring. |
| Ring.CircularArray.RemoveElement | metricManager/circularDoubleArray.hpp:140-168 | Drops the oldest value, or throws and changes nothing; the mutex stays locked exactly when the ring was empty. |
| Ring.RunOps | metricManager/circularDoubleArray.hpp:27-168 | Any run of adds, removes and reads on a new ring leaves the specified contents and lock, call by call, up to the first call that leaves the mutex locked. |
| Ring.StuckIff | metricManager/circularDoubleArray.hpp:101-168 | A run gets stuck exactly when some call of it removes from an empty ring or reads a stored empty-slot value. |
| Ring.LegalIsQueue | metricManager/circularDoubleArray.hpp:53-168 | For runs that add no empty-slot value and never remove from an empty ring, the ring is the bounded queue of those adds and removes. |
| Ring.RunIsSuffix | metricManager/circularDoubleArray.hpp:53-168 | After any run the ring holds the newest additions in order. |
| Ring.AddsKeepLatest | metricManager/circularDoubleArray.hpp:53-99 | A run of adds alone never gets stuck and leaves exactly the last min(slotNum - 1, n) of n values. |
| Ring.LatestOfRun | metricManager/circularDoubleArray.hpp:101-132 | After any run that did not get stuck, asking for n stored values gives the n newest additions unless one equals the empty-slot value. |
| Metrics.MetricManager.PutMetric | metricManager/metricManager.cpp:8-30 | Only the named metric changes, by one append; without a slot the constructor's exception leaves everything unchanged. |
| Metrics.MetricManager.GetLastNMetrics | metricManager/metricManager.cpp:32-50 | The last n values of the named metric, or the exception that applies; no metric changes. |
| Metrics.MetricManager.GetBufferLen | metricManager/metricManager.cpp:83-89 | The number of values of the named metric. |
| AddrGather.Split | utils/stringtool.h:13-65 | The scanning loops terminate and return exactly the records of the text, or overrun their 100-character buffer. |
| AddrGather.ParsedShape | utils/stringtool.h:13-65 | Whatever comes back is shorter than 100 characters and free of 'E'; it is non-empty when no 'H' is followed by NUL or the end. |
| AddrGather.LeftoverIff | server/unimosserver.cpp:117-183 | For non-empty addresses below 100 characters without 'E', the list comes back exactly when the leftover bytes behind every message are harmless to the messages after it. |
| AddrGather.LeftoverBreaksGather | server/unimosserver.cpp:117-124 | Any 200-byte message of the address "a" whose uninitialised bytes end in "Hx", with no other 'H' behind the NUL, does not come back as that address. |
| AddrGather.RoundTrip | utils/stringtool.h:13-65 | Records of such addresses come back as exactly the list, in order, when each 'H' of the padding is followed by 'E'. |
| AddrGather.GatherIff | server/unimosserver.cpp:117-183 | With that padding the list comes back exactly when every address is non-empty, below 100 characters and free of 'E'. |
| AddrGather.GatherIP | server/unimosserver.cpp:91-193 | The ranks' messages, gathered in rank order with whatever their buffers held, parse to all addresses in rank order exactly when the leftover bytes are harmless. |
| AdvectionKernels.FourthOrderBounds | example/amrexadvecation/Source/Src_K/slope_K.H:36-62 | A limited slope has the sign of both one-sided differences and at most twice their size. |
| AdvectionKernels.EdgeValueBetween | example/amrexadvecation/Source/Src_K/compute_flux_3D_K.H:12-54 | With at most one cell crossed per step, an upwind edge state lies between the two cell values. |
| Advection.EdgeBetween | example/amrexadvecation/Source/Src_K/compute_flux_3D_K.H:12-54 | The same for the edge states the kernel chain computes, on every axis. |
| Advection.UniformFixedIff | example/amrexadvecation/Source/AdvancePhiAllLevels.cpp:60-335 | A uniform field is a fixed point of the whole kernel chain exactly when it is zero or the face velocities are discretely divergence-free. |
| Advection.StreamDivergenceFree | example/amrexadvecation/Source/face_velocity.H:37-61 | Face velocities built from any psi are discretely divergence-free. |
| Advection.StreamKeepsUniform | example/amrexadvecation/Source/face_velocity.H:37-61 | Under them a uniform field stays uniform through the whole chain. |
| Advection.StreamIsPeriodic | example/amrexadvecation/Source/face_velocity.H:37-61 | A periodic psi gives periodic face velocities. |
| Advection.PeriodicFlux | example/amrexadvecation/Source/Src_K/compute_flux_3D_K.H:12-203 | Slopes, edge states, transverse corrections and fluxes of periodic data are periodic. |
| Advection.StepConserves | example/amrexadvecation/Source/Src_K/Adv_K.H:9-21 | One step conserves the total of phi over the periodic domain, whatever the velocities. |
| Advection.RunConserves | example/amrexadvecation/Source/Src_K/Adv_K.H:9-21 | Any number of steps under changing velocities and step sizes conserves the total and the periodicity. |
| AdvectionLoops.SlopeLoop2 | example/amrexadvecation/Source/Src_K/slope_K.H:10-34 | The triple loop writes the second-order limited slope in every cell of the box and no other cell. |
| AdvectionLoops.SlopeLoop4 | example/amrexadvecation/Source/Src_K/slope_K.H:36-62 | The triple loop writes the fourth-order limited slope in every cell of the box and no other cell. |

## Left out

- Metrics.MetricManager.GetBufferLen: the name must exist, because the source inserts and dereferences a null pointer otherwise.
- Hilbert.HilbertI2C: integer widths; the unbounded words agree with the 64-bit program while nDims * nBits <= 63 and nDims <= 30.
- Boxes.GetElemNum: does not model 32-bit overflow of the product of extents, which needs boxes of more than 2^31 cells.
- Pipeline.PublishAll: the puts of the ranks are registered one after another; requests of concurrent puts may reach two servers in different orders, which changes the order inside a list but not what it contains.
- ThreadPool.NoDeadlock: fairness of the scheduler and termination of the tasks themselves are assumptions; the promise/future that carries a task's result is not modelled.
- Thallium and Margo RPC, RDMA transfer, credentials, MPI start-up, JSON settings, logging and timers: input and output.
- The File, VTK-pointer and VTK-explicit backends: operating system files and library objects; the file backend's sub-region logic repeats `RawMemObj`.
- `putCarGrid` beyond the registration loop, and the memory accounting, round-robin choice and client-ID cache around it.
- The SFC-based DHT, the window eraser, `hilbert_box_vtx`, `hilbert_box_pt` and `hilbert_nextinbox`: never called.
- Trigger functions, task placement and the analytics workloads.
- `MPI_Dims_create`: the process grid is a parameter; every grid without an empty rank is covered.
- The trigonometric psi of the advection example: any psi is covered. Multi-level synchronisation, regridding and ghost filling live in AMReX; the level is periodic.
- Floating-point rounding in the advection kernels and the reaction-diffusion formula: over the reals.
- The cell-by-cell launches of the flux, velocity and update kernels (`amrex::ParallelFor`): each is one value per cell and is modelled as the field it produces; only the slope loops are loops of this repository.
