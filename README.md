# Booster resolution engine of SL2CBoosters, in Dafny

This project models how the SL2CBoosters library finds the booster tensor of
an EPRL vertex amplitude. The model covers `sl2cfoam_boosters` and its helper
`fill_ldim` in `src/c/boosters.c`, and the vertex adapter
`sl2cfoam_boosters_tensors_vertex`. It proves what that code promises about
them.

A request names a gauge-fixed axis `gf` (1 to 4), four doubled boundary spins
`j` and a shell depth `Dl` (at most `DL_MAX` = 50). The engine then does the
following, each step modelled in its own module:

- **Shape** (`shape.dfy`): the intertwiner range `two_i_min..two_i_max` and
  its extent `idim`, the l-extents from `fill_ldim`, and the per-axis maxima
  `l_max` from the `switch (gf)` blocks.
- **Layout** (`layout.dfy`): the column-major 6-axis tensor index, flat
  buffers, `memcpy` as a buffer update, and the element-wise sum of rank
  buffers.
- **Cache search** (`cache.dfy`): the exact depth first, then `Dl+1` upward
  to `DL_MAX`, then `Dl-1` downward to 0; the first stored depth wins. It
  includes the `do…while` loop of the source, with its one probe of
  `DL_MAX+1` when `Dl == DL_MAX`.
- **Enumeration and partition** (`enumeration.dfy`): the four nested loops
  over virtual spins (`ld` outermost, `la` innermost), the counter `lcount`,
  and the round-robin choice of the points a rank keeps in `ls_todo`.
- **Fill and reduce** (`fill.dfy`): per point, skip it (no intertwiner k),
  copy its block from the found tensor (when that tensor is deeper, or covers
  the point), or call the booster kernel. Then an `MPI_SUM` reduce of the rank
  buffers.
- **The request** (`boosters.dfy`): `sl2cfoam_boosters` from first to last:
  - the fatal errors;
  - the NULL reply;
  - the exact hit;
  - tensor creation;
  - the fill on every rank;
  - reduce, then store.

  The disk of stored tensors is a map from (gauge, spins, depth) to the
  tensor.
- **Vertex** (`vertex.dfy`): the ten spins of a vertex mapped onto the four
  booster requests.
  - `MAP_SPINS_2..5` give the spins and gauge of each request.
  - `b_two_i_mins` is recorded for each request.
  - The four requests run in order over one disk.

The two routines the engine calls without showing their code are parameters
of the model, bundled in `Boosters.Env`:

- `find_k_absolute_bounds` becomes `kbound`, a function giving
  `kdim_absmax`;
- `sl2cfoam_b4` becomes `kernel`. It maps the boundary spins and a
  virtual-spin point to the point's `idim x kdim` matrix.

The properties proved about the engine:

- **Errors.** They come in the source's order, each under exactly its
  condition.
- **Short-circuits.** NULL comes back when `kdim_absmax == 0`. An exact hit
  returns the stored tensor without a kernel call.
- **Search order.** The search order is proved against a declarative
  description. That description admits only one answer.
- **Enumeration.** The loops enumerate exactly the `(Dl+1)^3` points of the
  shell, in mixed-radix order. `ls_todo` receives exactly the points the rank
  owns.
- **Partition.** The ranks' shares are disjoint and together cover every
  point.
- **Reduce.** The sum of the zero-initialised rank buffers equals the tensor a
  single fill would produce.
- **Kernel calls.** Over all ranks, the kernel is called at exactly the points
  that need it. Starting from a deeper tensor, it is never called.
- **Reuse.** A copied block equals the block the kernel would have produced,
  provided the found tensor was itself computed from scratch. So on a disk of
  consistent tensors, the cache changes no reply.
- **Storing.** A request that stores its tensor keeps the disk consistent.
  Asking again returns the stored tensor unchanged.
- **Vertex.** The four vertex requests answer as if each ran alone, because
  each has its own gauge `6-n` and so never reads what another stored.

## Model

| member | source | states |
|---|---|---|
| Shape.FillLdim | src/c/boosters.c:52-88 | Succeeds exactly when `gf` is 1..4. The extent is 1 on axis `gf-1` and `ldim` on the other three. |
| Shape.ValidGauge | src/c/boosters.c:52-88 | The gauges `fill_ldim` accepts: `gf` is 1, 2, 3 or 4. Every other value reaches its error branch. |
| Shape.Div2 | src/c/boosters.c:116 | Halving truncated toward zero: the remainder is 0, or ±1 with the sign of the operand. |
| Shape.TwoMin | src/c/boosters.c:110 | `two_i_min` is the larger of the two coupling differences: at least each of them, and equal to one. |
| Shape.TwoMax | src/c/boosters.c:111 | `two_i_max` is the smaller of the two coupling sums: at most each of them, and equal to one. |
| Shape.Extent | src/c/boosters.c:116 | `DIV2(two_i_max - two_i_min) + 1`, with the range of the given quadruple. For the boundary spins it is `idim` (line 116). For a virtual-spin point it is `kdim` (lines 371-372). What it counts is stated by `Shape.ExtentCounts` and `Shape.ExtentEmpty`. |
| Shape.CouplingRange | src/c/boosters.c:110-111 | A value lies in `two_i_min..two_i_max` exactly when it satisfies the triangle bounds of both couplings (a-b) and (c-d). |
| Shape.ExtentCounts | src/c/boosters.c:116 | When the range is non-empty, `idim` is at least 1 and counts the values `two_i_min, two_i_min+2, …` that stay within `two_i_max`. |
| Shape.ExtentEmpty | src/c/boosters.c:116 | `idim <= 0` exactly when the range is empty by at least one step, and `idim < 0` exactly when it is empty by two. |
| Shape.ShellMax | src/c/boosters.c:236-270 | `l_max` equals `j` on the gauge-fixed axis and `j + two_Dl` on the other three. |
| Shape.ShellMaxMonotone | src/c/boosters.c:273-309 | The maxima of a shallower found tensor lie below those of the request on every axis. |
| Layout.Index4 | src/c/boosters.c:374-376 | The column-major position of four l offsets, axis a fastest: `a + d2*(b + d3*(c + d4*d))`. Its round trip, injectivity and bound are the lemmas below. |
| Layout.Index6 | src/c/boosters.c:376 | `TENSOR_INDEX` of a 6-axis tensor: `i + d0*(k + d1*Index4(l offsets))`. The `dst` and `src` pointers are this index at `i = k = 0`. |
| Layout.EncodeDecode | src/c/boosters.c:374-376 | Decoding a flat index into the four l offsets and encoding it again gives the same index, and the offsets are in bounds. |
| Layout.DecodeEncode | src/c/boosters.c:374-376 | Encoding in-bounds offsets and decoding the result gives the same offsets. |
| Layout.Index4Injective | src/c/boosters.c:374-376 | Distinct in-bounds offsets have distinct column-major indices. |
| Layout.Index4Bound | src/c/boosters.c:374-376 | The index of in-bounds offsets lies below the product of the extents. |
| Layout.BlockStart | src/c/boosters.c:376 | The `dst` offset of a point is `d0*d1` times its l index, and the whole `d0*d1` block fits in the tensor. |
| Layout.CopyWindow | src/c/boosters.c:383-385 | A copy of `d0*k` entries from a point's block start, with `k <= d1`, stays within the found tensor. |
| Layout.Write | src/c/boosters.c:385 | `memcpy` as a buffer update: the length is kept, the entries in the window take the copied values, and all others are unchanged. |
| Layout.WriteCommute | src/c/boosters.c:356-358 | Two writes to disjoint windows give the same buffer in either order. |
| Layout.WriteBlock | src/c/boosters.c:376-409 | Writing at the start of a block changes only that block: its prefix becomes the written values and the rest is kept. |
| Layout.Add | src/c/boosters.c:419-421 | `MPI_SUM` on two buffers: the result has the first buffer's length, and its entries are the sums of the matching entries. |
| Layout.AddZeros | src/c/boosters.c:233 | Adding a zero buffer, on either side, changes nothing. |
| Layout.AddConcat | src/c/boosters.c:415-424 | Summing two block-structured buffers sums them block by block. |
| CacheSearch.Resolve | src/c/boosters.c:145-174 | Exact exactly when the requested depth is stored. A partial hit is a stored depth, other than `Dl`, in `0..Top(Dl)`. |
| CacheSearch.ResolveIsUpwardFirst | src/c/boosters.c:145-174 | The cache search result satisfies the search-order description: <ul><li>the exact depth;</li><li>else the nearest stored depth above `Dl` up to `DL_MAX`;</li><li>else the nearest stored depth below `Dl`;</li><li>else nothing is stored in `0..Top(Dl)`.</li></ul> |
| CacheSearch.UpwardFirstUnique | src/c/boosters.c:145-174 | The search-order description allows only one outcome. |
| CacheSearch.StepNext | src/c/boosters.c:169-172 | The `dli` update walks the candidate list in order. After the last candidate it leaves `dli` negative, which ends the loop. |
| CacheSearch.Candidates | src/c/boosters.c:152-174 | The depths probed after the exact one, in order: `Dl+1, …, Top(Dl)`, then `Dl-1, …, 0`. |
| CacheSearch.Step | src/c/boosters.c:169-172 | The `dli` update: it stays above `Dl`, moving to `dli+1`, exactly while `Dl < dli < DL_MAX`. Otherwise it drops below `Dl`. |
| CacheSearch.SearchPrefersLarger | src/c/boosters.c:152-174 | With depths {1, 3} stored, a request for 2 starts from 3. |
| CacheSearch.SearchAtMaximum | src/c/boosters.c:154-174 | At `Dl == DL_MAX` the first probe is `DL_MAX+1`. When that depth is not stored, any partial hit is a shallower one. |
| CacheSearch.SearchCache | src/c/boosters.c:129-174 | The `do…while` loop: <ul><li>`found` holds exactly when the search finds a depth;</li><li>`two_Dl_found` is twice that depth;</li><li>`two_Dl_found` stays 0 when nothing is found.</li></ul> |
| Enumeration.Steps | src/c/boosters.c:324-327 | The number of loop iterations from `lo` in steps of 2 while at most `hi`; 0 exactly when `hi < lo`. |
| Enumeration.GridMembers | src/c/boosters.c:324-327 | A quadruple is enumerated exactly when each axis lies between `j` and `l_max` with an even difference from `j`. |
| Enumeration.Offsets | src/c/boosters.c:376 | The tensor offsets of a point, `(l-j)/2` on each axis. `Enumeration.OffsetsDiv2` shows they equal `DIV2(l-j)` whenever `l >= j` on every axis. `OffsetsShifted` and `ShiftedOffsets` show they invert the loop variables. |
| Enumeration.OffsetsDiv2 | src/c/boosters.c:376 | On a point at or above `j` on every axis, the offsets are `DIV2(l-j)` axis by axis, although Dafny rounds `/` down where `DIV2` truncates. |
| Enumeration.Grid | src/c/boosters.c:324-347 | The points in the order the nested loops visit them (`ld` outermost, `la` innermost). There are as many as the product of the four loop extents. |
| Enumeration.GridDistinct | src/c/boosters.c:324-329 | Different counter values give different quadruples. |
| Enumeration.GridAt | src/c/boosters.c:324-376 | The quadruple at counter `x` is in the grid, its `DIV2(l-j)` offsets are the mixed-radix digits of `x` with axis a fastest, and its column-major index is `x`. |
| Enumeration.GridIndex | src/c/boosters.c:324-376 | The quadruple at offsets `o` sits at counter `Index4(o)`. |
| Enumeration.OffsetsShifted | src/c/boosters.c:376 | The point `o` steps above `j` is in the grid, and its offsets are `o`. |
| Enumeration.ShiftedOffsets | src/c/boosters.c:376 | A grid point's offsets are in bounds and lead back to the point. |
| Enumeration.ShellGrid | src/c/boosters.c:230-320 | The loop extents of a shell equal `fill_ldim(gf, Dl+1)`. There are exactly `(Dl+1)^3` points, the capacity of `ls_todo`. |
| Enumeration.OwnedStride | src/c/boosters.c:323-342 | Rank r keeps `ceil((n-r)/size)` points, and its i-th kept point is point `r + i*size`. |
| Enumeration.Owned | src/c/boosters.c:334-342 | The points whose counter is congruent to the rank modulo `mpi_size`, kept in enumeration order. They are never more than the points enumerated. |
| Enumeration.OwnedSnoc | src/c/boosters.c:334-342 | Each step of the loops appends the new point to the rank's list exactly when its counter is congruent to the rank. |
| Enumeration.OwnedIn | src/c/boosters.c:334-342 | A rank keeps only enumerated points. |
| Enumeration.OwnedPrefix | src/c/boosters.c:334-342 | What a rank keeps from a prefix of the enumeration is a prefix of what it keeps overall. |
| Enumeration.PartitionCover | src/c/boosters.c:334 | Every point `x` is kept by rank `x mod size`, at position `x / size`. |
| Enumeration.PartitionDisjoint | src/c/boosters.c:334 | Equal slots `r + i*size` mean equal rank and equal position. |
| Enumeration.OwnedDisjoint | src/c/boosters.c:323-342 | No enumerated point is kept by two different ranks. |
| Enumeration.OwnedSingle | src/c/boosters.c:331-336 | With a single rank (the serial build) the rank keeps every point in order. |
| Enumeration.ParallelThreshold | src/c/boosters.c:352-353 | The fill loop goes parallel exactly when the rank's share has at least 4 points. |
| Enumeration.GoParallel | src/c/boosters.c:352-353 | The `go_parallel` flag: set exactly when `ls_todo_size` is at least 4. |
| Enumeration.Tick | src/c/boosters.c:327-329 | One step of the `la` loop advances `lcount` by one. |
| Enumeration.Carry | src/c/boosters.c:324-329 | Finishing an inner loop moves the counter to the first point of the next outer step. After the last step it equals the number of points. |
| Enumeration.ScanRow | src/c/boosters.c:327-344 | After the `la` loop, `lcount` is the index of the next row and `ls_todo[..ls_todo_size]` holds exactly the owned points seen so far. |
| Enumeration.EnumerateOwned | src/c/boosters.c:319-347 | `ls_todo[..ls_todo_size]` holds exactly the points the rank owns, in enumeration order. |
| Fill.Dims | src/c/boosters.c:230-233 | The result tensor has extents `idim`, `kdim_absmax` and the four `fill_ldim` extents. Its size is one block of `idim*kdim_absmax` per point. |
| Fill.ShellCovers | src/c/boosters.c:379-399 | A point of a shallower shell that lies below a deeper shell's maxima is in the deeper grid and in the deeper tensor's bounds. |
| Fill.CopyInFound | src/c/boosters.c:379-399 | A point the fill copies lies in the found tensor's grid and its offsets are in that tensor's bounds. |
| Fill.CopyRange | src/c/boosters.c:383-399 | The source window of a copy lies in the found tensor, and the copy fits in the destination block. |
| Fill.ComputeShape | src/c/boosters.c:406-409 | The kernel's matrix has `idim*kdim` entries, which fit in the point's block. |
| Fill.Vals | src/c/boosters.c:365-409 | At most one block's width of entries is written at a point. |
| Fill.Decide | src/c/boosters.c:365-402 | The branch taken at a point, in the order: <ul><li>skip exactly when `two_k_max < two_k_min`;</li><li>else copy when a found tensor is deeper;</li><li>else copy when a found tensor covers the point;</li><li>else compute.</li></ul> A copy needs a found tensor, and a compute happens only without a deeper one. |
| Fill.CopyLen | src/c/boosters.c:385 | The `memcpy` length of both copy branches (lines 385 and 399): `idim * min(kdim_absmax, dims[1])` of the found tensor. `Fill.CopyRange` and `Layout.CopyWindow` show the copy stays in bounds. |
| Fill.Block | src/c/boosters.c:376-409 | A point's block holds the written entries followed by the zeros of creation. |
| Fill.FullBufferBlock | src/c/boosters.c:358-409 | In the single-fill tensor, the block at point `x`'s offset is that point's block. |
| Fill.Computed | src/c/boosters.c:406 | The kernel is called only at listed points that need it. |
| Fill.ComputedComplete | src/c/boosters.c:406 | Every listed point that needs the kernel gets a call. |
| Fill.DeeperNoCompute | src/c/boosters.c:379-387 | With a deeper found tensor no point calls the kernel. |
| Fill.BlockPosition | src/c/boosters.c:376 | Point `x`'s block starts at `TENSOR_INDEX(0, 0, DIV2(l-j))` of the result. |
| Fill.FillAdvance | src/c/boosters.c:376-409 | One `memcpy` at one owned point turns the buffer before the point into the buffer after it. |
| Fill.RankBlocksStart | src/c/boosters.c:233 | Before the fill loop the buffer is all zeros. |
| Fill.RankBlocksDone | src/c/boosters.c:358-413 | After the fill loop the buffer is the rank's finished buffer. |
| Fill.Memcpy | src/c/boosters.c:385-409 | The array afterwards is the old contents with the window at `dst` replaced by the values. |
| Fill.PointVals | src/c/boosters.c:365-409 | The loop body at one point: <ul><li>a skip when `two_k_max < two_k_min`;</li><li>else a copy of `idim*min(kdim_absmax, dims[1])` entries when the found tensor is deeper;</li><li>else the same copy when the found tensor covers the point;</li><li>else the kernel's matrix.</li></ul> The kernel flag is set exactly in the last case. |
| Fill.FillPoint | src/c/boosters.c:358-409 | One pass of the fill loop turns the buffer after `lind` owned points into the buffer after `lind+1`. The kernel flag is set exactly when the point needs the kernel. |
| Fill.FillRank | src/c/boosters.c:356-413 | The rank's buffer: its owned points get their blocks, all other entries stay 0. The kernel calls are the owned points that need it, in order. |
| Fill.WindowsDisjoint | src/c/boosters.c:376-409 | The windows the fill writes at two different points do not overlap, and both lie inside the tensor. |
| Fill.StepsCommute | src/c/boosters.c:356-409 | Two fill steps at different points give the same buffer in either order. |
| Fill.ReducePrefix | src/c/boosters.c:415-424 | The sum of ranks 0..m-1 is the block-wise sum of their blocks. |
| Fill.ReduceStep | src/c/boosters.c:415-424 | Adding rank r's buffer extends the partial sum by one rank. |
| Fill.ReduceIsFull | src/c/boosters.c:415-424 | The `MPI_SUM` of all rank buffers equals the tensor one rank would fill alone. |
| Fill.SourceShape | src/c/boosters.c:209-218 | The found tensor has the shape of a fill at its own depth. |
| Fill.SourceBlock | src/c/boosters.c:379-399 | The copied window of the found tensor is the prefix of that tensor's own block at the same point. |
| Fill.ComputedBlock | src/c/boosters.c:406-409 | A computed block is the kernel's matrix followed by zeros. |
| Fill.KernelFitsCopy | src/c/boosters.c:385-399 | The kernel's matrix at a copied point is no longer than the copy. |
| Fill.CopyIsKernel | src/c/boosters.c:379-402 | When the found tensor was computed from scratch, the copied entries are the kernel's matrix followed by zeros. |
| Fill.BlockReuse | src/c/boosters.c:379-409 | Such a copy gives the same block as computing the point. |
| Fill.ReuseTransparent | src/c/boosters.c:379-409 | Starting from a found tensor computed from scratch gives the same tensor as starting from nothing. |
| Boosters.FoundFor | src/c/boosters.c:152-186 | The tensor loaded for the fill. On a partial hit it is the tensor stored at the depth the search chose, with `two_Dl_found` twice that depth. Otherwise there is none. |
| Boosters.FoundForShaped | src/c/boosters.c:178-186 | The tensor the search loads has the shape the fill expects. |
| Boosters.FilledParts | src/c/boosters.c:230-424 | A filled tensor has the extents of `TENSOR_CREATE` and, as data, the single-fill buffer. |
| Boosters.CallsUpToSound | src/c/boosters.c:406 | Over ranks 0..m-1, the kernel is called only at points that need it. |
| Boosters.CallsUpToGrow | src/c/boosters.c:406 | A call made by rank r is among the calls of ranks 0..m-1 for every m > r. |
| Boosters.CallsComplete | src/c/boosters.c:334-406 | Over all ranks, the kernel is called exactly at the points that need it. |
| Boosters.OneRank | src/c/boosters.c:319-413 | One rank's enumeration and fill produce its buffer and its kernel calls. |
| Boosters.RunRanks | src/c/boosters.c:319-424 | The ranks in turn, each buffer summed into the master's. The result is the single-fill tensor, and the kernel is called exactly at the points that need it. |
| Boosters.FillStage | src/c/boosters.c:230-428 | Create, fill, reduce and store. The tensor is the filled one, the disk gains it exactly when `store` is set, and the kernel calls are exactly the needed points. |
| Boosters.Boosters | src/c/boosters.c:90-445 | `sl2cfoam_boosters` as a whole. Its reply and the disk after it are those of the request function `Boost`, and the kernel is called exactly at the needed points. |
| Boosters.Boost | src/c/boosters.c:90-445 | `sl2cfoam_boosters` as a function of the disk: <ul><li>too many shells;</li><li>NULL when `kdim_absmax == 0`;</li><li>a bad gauge;</li><li>the exact stored tensor;</li><li>an overflowing `idim`;</li><li>else the filled tensor, stored when asked.</li></ul> Its properties are the lemmas below. |
| Boosters.BoostErrors | src/c/boosters.c:84-233 | <ul><li>Too many shells exactly when `Dl > 50`.</li><li>A bad gauge exactly when it is reached (not too many shells, `kdim_absmax > 0`) and `gf` is not 1..4.</li><li>A wrapped-around `idim` exactly when it is reached and `idim < 0`.</li><li>No error changes the disk.</li></ul> |
| Boosters.BoostDegenerate | src/c/boosters.c:120-124 | NULL comes back exactly when `Dl <= 50` and `kdim_absmax == 0`. Then the disk is unchanged and the kernel is not called. |
| Boosters.BoostExact | src/c/boosters.c:145-225 | A valid request whose exact tensor is stored returns that tensor. The disk is unchanged and the kernel is not called. |
| Boosters.BoostShaped | src/c/boosters.c:230-428 | A returned tensor has the canonical shape for its key and dense data, and the disk keeps only canonical tensors. |
| Boosters.StoreShaped | src/c/boosters.c:426-428 | Storing a canonical tensor keeps the disk canonical. |
| Boosters.BoostIdempotent | src/c/boosters.c:145-428 | After a successful stored request, asking again is an exact cache hit. It calls no kernel, returns the same reply and leaves the disk unchanged. |
| Boosters.BoostWrites | src/c/boosters.c:426-428 | A request either leaves the disk unchanged or, only when `store` is set, adds the tensor it returns under its own key. |
| Boosters.DeeperNoKernel | src/c/boosters.c:379-387 | A request that starts from a deeper tensor never calls the kernel. |
| Boosters.PrefersDeeper | src/c/boosters.c:152-387 | With depths {1, 3} stored, a request for 2 loads depth 3 and calls no kernel. |
| Boosters.ScratchJob | src/c/boosters.c:129-130 | On an empty disk the fill starts with no found tensor. |
| Boosters.ExactIsScratch | src/c/boosters.c:178-180 | On a consistent disk an exact hit is the tensor computed from scratch. |
| Boosters.FilledIsScratch | src/c/boosters.c:379-409 | On a consistent disk a partial hit fills the tensor computed from scratch. |
| Boosters.CacheTransparent | src/c/boosters.c:145-409 | On a consistent disk every request replies as on an empty disk. |
| Boosters.BoostConsistent | src/c/boosters.c:426-428 | Storing keeps a consistent disk consistent. |
| Boosters.GaugeView | src/c/boosters.c:145-186 | A request's reply depends only on the stored tensors of its own gauge. |
| Boosters.GaugeKept | src/c/boosters.c:426-428 | A request changes no key of another gauge. |
| Vertex.PartnersAround | src/c/boosters.c:40-50 | Around node n, the four neighbours are the other four nodes, each once. |
| Vertex.MapSpins | src/c/boosters.c:40-50 | `MAP_SPINS_2..5`: <ul><li>booster 2 gets `(j23,j24,j25,j12)` with `gf=4`;</li><li>booster 3 gets `(j34,j35,j13,j23)` with `gf=3`;</li><li>booster 4 gets `(j45,j14,j24,j34)` with `gf=2`;</li><li>booster 5 gets `(j15,j25,j35,j45)` with `gf=1`.</li></ul> |
| Vertex.MapSpinsLinks | src/c/boosters.c:40-50 | Booster n gets gauge `6-n`, which is valid. Its spins are the links at node n in cyclic neighbour order, so booster 2 gets `(j23,j24,j25,j12)` and so on. The link to node 1 sits on the gauge-fixed axis. |
| Vertex.RunUpTo | src/c/boosters.c:477-499 | The requests in order over one disk. The disk stays canonical, and a run without error has one reply per request made. |
| Vertex.CollectReplies | src/c/boosters.c:477-499 | Collecting replies: <ul><li>succeeds exactly when all of them succeed;</li><li>on success, keeps their values in order;</li><li>on failure, fails with the first error.</li></ul> |
| Vertex.LowerGaugesKept | src/c/boosters.c:471-499 | A request keeps every gauge below its own. |
| Vertex.UnseenStep | src/c/boosters.c:477-499 | After booster n runs, each gauge still to be used has the original disk's tensors. |
| Vertex.RunStep | src/c/boosters.c:477-499 | Each further booster in the run replies as it would alone on the original disk. |
| Vertex.RunIsSeparate | src/c/boosters.c:477-499 | The whole run is the collection of the four separate replies. |
| Vertex.RunStops | src/c/boosters.c:477-499 | After a fatal error, no further request runs. |
| Vertex.VertexReplies | src/c/boosters.c:477-499 | <ul><li>The vertex succeeds exactly when each of the four requests would succeed alone.</li><li>It then returns their four tensors in order.</li><li>Otherwise it fails with the error of the first failing request.</li></ul> |
| Vertex.RepliesTransparent | src/c/boosters.c:471-499 | On a consistent disk the four replies are those on an empty disk. |
| Vertex.BoosterAt | src/c/boosters.c:478-481 | One booster: the request's reply and disk, the disk kept canonical, and `b_two_i_mins` set to `max(abs(ja-jb), abs(jc-jd))` for the mapped spins. |
| Vertex.Advance | src/c/boosters.c:478-499 | After the first n-2 boosters succeed, booster n extends the run by one step and records its `two_i_min`. |
| Vertex.TensorsVertex | src/c/boosters.c:447-501 | `sl2cfoam_boosters_tensors_vertex`: <ul><li>the four requests in order over one disk;</li><li>on success, each `b_two_i_mins[n]` is `max(abs(ja-jb), abs(jc-jd))` of booster n's mapped spins.</li></ul> |

## Left out

- **File I/O:**
  - Tensor files, `file_exist`, path names, and the Immirzi parameter in them are not modelled. The disk is a map from (gauge, spins, depth) to a tensor.
  - `TENSOR_LOAD` and `TENSOR_STORE` are a map lookup and a map update.
  - `TENSOR_FREE` and the other frees have no counterpart, since the model has no memory to release.
- Boosters.BoostDegenerate: on the `kdim_absmax == 0` path, the `goto tensor_return` at `src/c/boosters.c:124` jumps over the initialisation of `b4t_found` (line 127). The test at line 439 then reads that pointer uninitialised, so the C code may free an arbitrary address. The model gives the evidently intended reply: NULL, with the disk unchanged and no kernel call. It does not model the reading of the uninitialised pointer.
- **`ls_todo` leak:** the buffer `ls_todo` allocated by `calloc` at `src/c/boosters.c:320` is never freed, so every request that reaches the fill leaks it. The model has no heap, so it does not represent the leak.
- **`NO_IO`:** the `NO_IO` build is not modelled. That build drops the whole block at `src/c/boosters.c:133-188`: the file name, the cache search and every load. There `found` stays false and every request recomputes its tensor. The model is the build with I/O: it always searches. In the vertex adapter, `store` is a parameter rather than a build flag.
- **MPI transport:** `MPI_Bcast`, `TENSOR_BCAST` and `MPI_Reduce` are modelled as ranks that run one after the other, each rank's buffer added into the master's. A single rank is the serial build.
- **Error order in the serial build:** the serial build returns an exact hit before any `fill_ldim` call. Under the model's disk invariant a stored tensor always has a valid gauge, so the two orders agree.
- **OpenMP scheduling:** scheduling of the fill loop is out of scope. The model proves that two fill steps at different points commute (`Fill.StepsCommute`). It does not prove that an arbitrary reordering of a rank's whole `ls_todo` gives the same buffer.
- **Floating point:** tensor entries are mathematical reals. `MPI_SUM` is exact addition, so its rounding and order of summation are not modelled.
- **Opaque routines:** `sl2cfoam_b4` and `find_k_absolute_bounds` are functions supplied as parameters (`Boosters.Env`).
  - `Boosters.Fits` states what the engine takes for granted of them: the kernel's matrix has `idim*kdim` entries, and `kdim_absmax` bounds every `kdim`.
  - A stored tensor's k extent is the bound at its own depth.
- **Memory safety:** the source copies without bounds checks. The model instead requires found tensors and kernel results of the expected shape (`Fill.Valid`, `Boosters.DiskShaped`), so every copy is proved to stay in bounds.
- **`TENSOR_CREATE`** is taken to zero-initialise the tensor, as the reduce by sum relies on.
- **`DIV2`** is not defined in the files shown; it is modelled as halving truncated toward zero.
- **Wrapped-around extent:** when `idim < 0`, `TENSOR_CREATE` would receive a wrapped-around `size_t`. The model reports this as an `ExtentOverflow` error rather than modelling the allocation.
- **Depth type:** `Dl` is a natural number. The source does not reject a negative `Dl`, and the model does not represent one.
- **Integer width:** `dspin` is a 32-bit `int` (`src/c/sl2cfoam.h:47`), but the model uses unbounded integers. Spins are assumed small enough for every sum below to fit in an `int`.
- Shape.TwoMax: does not model 32-bit wrap-around of `two_ja+two_jb` (`src/c/boosters.c:110-111`), because spins are assumed to fit.
- Shape.ShellMax: does not model 32-bit wrap-around of `two_j+two_Dl` (`src/c/boosters.c:241-302`), because spins are assumed to fit.
- CacheSearch.SearchCache: does not model a 32-bit `(dspin)(2*dli)` (`src/c/boosters.c:166`). With `dli` at most 51 that value always fits.
- **Fatal errors:** `error()` exits the program. The model returns an `Err` with no disk change instead.
- Boosters.Boosters: the kernel calls are stated as a set of points. Each needed point is in fact called exactly once, on the rank that owns it, but the contract does not state that multiplicity.
- Vertex.TensorsVertex: `b_two_i_mins` is stated only for runs that succeed, since every failure is a fatal error in the source.
- **Unreachable branches:** the `default` branches of the two `l_max` switches are never reached, because `fill_ldim` has already rejected the gauge. The model therefore has no separate branch for them.
- **`sl2cfoam_boosters_load` and `sl2cfoam_boosters_free`** are file and memory wrappers and are not modelled.
- **Context files:** `src/c/setup.c` (library setup: directories, configuration, MPI and BLAS initialisation) and `src/c/sl2cfoam.h` (declarations) are not part of this model.
