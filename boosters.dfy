/** sl2cfoam_boosters: one booster request from bounds to the returned
    tensor, with the disk of stored tensors, the ranks of a run simulated
    one after the other, and what the engine promises about the result. */
module Boosters {
  import opened Shape
  import opened Layout
  import opened CacheSearch
  import opened Enumeration
  import opened Fill

  /** The name of a stored tensor: gauge, boundary spins and shell depth
      (the file name, with the Immirzi parameter fixed). */
  datatype Key = Key(gf: int, j: Quad, dl: int)

  /** The booster directory: the tensors stored under their keys. */
  type Disk = map<Key, Tensor>

  /** The two routines the engine calls without this model seeing their
      code: find_k_absolute_bounds, giving kdim_absmax for a gauge, spins
      and doubled depth, and the booster kernel sl2cfoam_b4. */
  datatype Env = Env(kbound: (int, Quad, int) -> nat, kernel: (Quad, Quad) -> seq<real>)

  /** What a request returns: NULL (no intertwiner k for any point) or a tensor. */
  datatype Reply = Degenerate | Returned(t: Tensor)

  /** The reply of a request and the disk after it. */
  datatype Outcome = Outcome(reply: Result<Reply>, disk: Disk)

  /** The depths stored for a gauge and spins. */
  function Depths(disk: Disk, gf: int, j: Quad): (s: set<int>)
    ensures forall dl :: dl in s <==> Key(gf, j, dl) in disk
  {
    set k | k in disk && k.gf == gf && k.j == j :: k.dl
  }

  /** The fill job of a request of depth Dl starting from found. */
  function Request(env: Env, gf: int, j: Quad, Dl: nat, found: Found): Job
  {
    Job(gf, j, Dl, env.kbound(gf, j, 2 * Dl), found, env.kernel)
  }

  /** A tensor as the engine creates it under key k: idim rows,
      kdim_absmax columns, fill_ldim's four l extents, dense data. */
  predicate Canonical(env: Env, k: Key, t: Tensor)
  {
    ValidGauge(k.gf) && 0 <= k.dl && Extent(k.j) >= 0 &&
    t.dims == [Extent(k.j), env.kbound(k.gf, k.j, 2 * k.dl)] + FillLdim(k.gf, k.dl + 1).value &&
    |t.data| == Product(t.dims)
  }

  /** Every stored tensor has the shape the engine gives its key. */
  predicate DiskShaped(env: Env, disk: Disk)
  {
    forall k :: k in disk ==> Canonical(env, k, disk[k])
  }

  /** The kernel returns matrices of the size the fill expects, wherever
      the engine would call it for this request. */
  ghost predicate Fits(env: Env, gf: int, j: Quad, Dl: nat)
  {
    Dl <= DL_MAX && ValidGauge(gf) && Extent(j) >= 0 && env.kbound(gf, j, 2 * Dl) > 0 ==>
      KernelShaped(Request(env, gf, j, Dl, NotFound))
  }

  lemma KernelShapedAnyFound(env: Env, gf: int, j: Quad, Dl: nat, f: Found)
    requires ValidGauge(gf) && Extent(j) >= 0
    ensures KernelShaped(Request(env, gf, j, Dl, f)) == KernelShaped(Request(env, gf, j, Dl, NotFound))
  {
  }

  /** The request reaches the fill stage: no fatal error, not degenerate,
      no exact tensor on disk. */
  predicate Computes(env: Env, disk: Disk, gf: int, j: Quad, Dl: nat)
  {
    Dl <= DL_MAX && env.kbound(gf, j, 2 * Dl) > 0 && ValidGauge(gf) &&
    Resolve(Depths(disk, gf, j), Dl) != Exact && Extent(j) >= 0
  }

  /** The tensor the fill starts from: the one the cache search chose, if any. */
  function FoundFor(disk: Disk, gf: int, j: Quad, Dl: nat): (f: Found)
    ensures f.Found? ==> (Resolve(Depths(disk, gf, j), Dl).Partial? &&
      f == Found(disk[Key(gf, j, Resolve(Depths(disk, gf, j), Dl).dl)], 2 * Resolve(Depths(disk, gf, j), Dl).dl))
    ensures f.NotFound? ==> !Resolve(Depths(disk, gf, j), Dl).Partial?
  {
    match Resolve(Depths(disk, gf, j), Dl)
    case Partial(dl) => Found(disk[Key(gf, j, dl)], 2 * dl)
    case _ => NotFound
  }

  /** A stored tensor has the shape the fill expects of a found tensor. */
  lemma FoundForShaped(env: Env, disk: Disk, gf: int, j: Quad, Dl: nat)
    requires DiskShaped(env, disk) && ValidGauge(gf) && Extent(j) >= 0
    ensures FoundShaped(Request(env, gf, j, Dl, FoundFor(disk, gf, j, Dl)))
  {
    var h := Resolve(Depths(disk, gf, j), Dl);
    if h.Partial? {
      var t := disk[Key(gf, j, h.dl)];
      assert Canonical(env, Key(gf, j, h.dl), t);
      assert t.dims[2..] == FillLdim(gf, h.dl + 1).value;
      assert (2 * h.dl) / 2 == h.dl;
    }
  }

  /** The fill job of a request that reaches the fill stage. */
  function JobFor(env: Env, disk: Disk, gf: int, j: Quad, Dl: nat): (job: Job)
    requires DiskShaped(env, disk) && Fits(env, gf, j, Dl) && Computes(env, disk, gf, j, Dl)
    ensures Valid(job)
  {
    var f := FoundFor(disk, gf, j, Dl);
    KernelShapedAnyFound(env, gf, j, Dl, f);
    FoundForShaped(env, disk, gf, j, Dl);
    Request(env, gf, j, Dl, f)
  }

  /** The tensor a request that reaches the fill stage returns. */
  function Filled(env: Env, disk: Disk, gf: int, j: Quad, Dl: nat): (t: Tensor)
    requires DiskShaped(env, disk) && Fits(env, gf, j, Dl) && Computes(env, disk, gf, j, Dl)
    ensures Canonical(env, Key(gf, j, Dl), t)
  {
    var job := JobFor(env, disk, gf, j, Dl);
    Tensor(Dims(job), FullBuffer(job))
  }

  /** The filled tensor's extents are idim, kdim_absmax and fill_ldim's. */
  lemma FilledParts(env: Env, disk: Disk, gf: int, j: Quad, Dl: nat)
    requires DiskShaped(env, disk) && Fits(env, gf, j, Dl) && Computes(env, disk, gf, j, Dl)
    ensures var job := JobFor(env, disk, gf, j, Dl);
      Filled(env, disk, gf, j, Dl) ==
        Tensor([Extent(j), env.kbound(gf, j, 2 * Dl)] + FillLdim(gf, Dl + 1).value, FullBuffer(job))
  {
  }

  /** A request to sl2cfoam_boosters, as a function of the disk: the fatal
      errors in the order the engine meets them, NULL for degenerate
      spins, the stored tensor on an exact hit, else the filled tensor,
      which is stored when asked for. */
  function Boost(env: Env, disk: Disk, gf: int, j: Quad, Dl: nat, store: bool): Outcome
    requires DiskShaped(env, disk) && Fits(env, gf, j, Dl)
  {
    if Dl > DL_MAX then Outcome(Err(TooManyShells), disk)
    else if env.kbound(gf, j, 2 * Dl) == 0 then Outcome(Ok(Degenerate), disk)
    else if !ValidGauge(gf) then Outcome(Err(BadGauge), disk)
    else if Resolve(Depths(disk, gf, j), Dl) == Exact then Outcome(Ok(Returned(disk[Key(gf, j, Dl)])), disk)
    else if Extent(j) < 0 then Outcome(Err(ExtentOverflow), disk)
    else
      var t := Filled(env, disk, gf, j, Dl);
      Outcome(Ok(Returned(t)), if store then disk[Key(gf, j, Dl) := t] else disk)
  }

  /** The points at which a request calls the kernel. */
  function Needed(env: Env, disk: Disk, gf: int, j: Quad, Dl: nat): set<Quad>
    requires DiskShaped(env, disk) && Fits(env, gf, j, Dl)
  {
    if Computes(env, disk, gf, j, Dl) then
      var job := JobFor(env, disk, gf, j, Dl);
      set l | l in Points(job) && Decide(job, l) == Compute
    else {}
  }

  // ----- the ranks of a run -----

  /** The kernel calls of ranks 0..m-1, in order. */
  function CallsUpTo(job: Job, size: nat, m: nat): seq<Quad>
    requires ValidGauge(job.gf) && 0 < size
  {
    if m == 0 then [] else CallsUpTo(job, size, m - 1) + Computed(job, Owned(Points(job), m - 1, size))
  }

  lemma {:induction false} CallsUpToSound(job: Job, size: nat, m: nat, l: Quad)
    requires ValidGauge(job.gf) && 0 < size && l in CallsUpTo(job, size, m)
    ensures l in Points(job) && Decide(job, l) == Compute
  {
    if l !in CallsUpTo(job, size, m - 1) {
      OwnedIn(Points(job), m - 1, size, l);
    } else {
      CallsUpToSound(job, size, m - 1, l);
    }
  }

  lemma {:induction false} CallsUpToGrow(job: Job, size: nat, r: nat, m: nat, l: Quad)
    requires ValidGauge(job.gf) && 0 < size && r < m
    requires l in Computed(job, Owned(Points(job), r, size))
    ensures l in CallsUpTo(job, size, m)
  {
    if r < m - 1 {
      CallsUpToGrow(job, size, r, m - 1, l);
    }
  }

  /** Over all ranks the kernel is called at exactly the points that need it. */
  lemma CallsComplete(job: Job, size: nat)
    requires ValidGauge(job.gf) && 0 < size
    ensures forall l :: l in CallsUpTo(job, size, size) <==> l in Points(job) && Decide(job, l) == Compute
  {
    forall l | l in CallsUpTo(job, size, size)
      ensures l in Points(job) && Decide(job, l) == Compute
    {
      CallsUpToSound(job, size, size, l);
    }
    forall l | l in Points(job) && Decide(job, l) == Compute
      ensures l in CallsUpTo(job, size, size)
    {
      var pts := Points(job);
      var x :| 0 <= x < |pts| && pts[x] == l;
      Euclid(x, size);
      PartitionCover(pts, size, x);
      ComputedComplete(job, Owned(pts, x % size, size), l);
      CallsUpToGrow(job, size, x % size, size, l);
    }
  }

  /** What one rank does: enumerate the points it owns into ls_todo
      (whose capacity is CUBE(Dl+1)) and fill its buffer from them. */
  method OneRank(job: Job, rank: nat, size: nat) returns (data: seq<real>, calls: seq<Quad>)
    requires Valid(job) && rank < size
    ensures data == RankBuffer(job, rank, size)
    ensures calls == Computed(job, Owned(Points(job), rank, size))
  {
    var lmax := ShellMax(job.gf, job.j, 2 * job.Dl);
    var ldim := Div2(2 * job.Dl) + 1;
    ShellGrid(job.gf, job.j, job.Dl);
    var todo := EnumerateOwned(job.j, lmax, ldim * ldim * ldim, rank, size);
    data, calls := FillRank(job, todo, rank, size);
  }

  /** The ranks one after the other, each buffer added into the master's
      (MPI_Reduce with MPI_SUM). Returns the reduced data and the kernel
      calls of all ranks, rank by rank. */
  method RunRanks(job: Job, size: nat) returns (sum: seq<real>, calls: seq<Quad>)
    requires Valid(job) && 0 < size
    ensures sum == FullBuffer(job)
    ensures forall l :: l in calls <==> l in Points(job) && Decide(job, l) == Compute
  {
    sum := Zeros(Size(job));
    calls := [];
    for rank := 0 to size
      invariant sum == SumAll(RankBuffers(job, size)[..rank], Size(job))
      invariant calls == CallsUpTo(job, size, rank)
    {
      var data, c := OneRank(job, rank, size);
      ReduceStep(job, size, rank, data);
      sum := Add(sum, data);
      calls := calls + c;
    }
    ReduceIsFull(job, size);
    CallsComplete(job, size);
  }

  /** The fill stage of a request: create the tensor of extents idim,
      kdim_absmax and fill_ldim's, fill it on every rank, reduce, and store
      it when asked for. */
  method FillStage(env: Env, disk: Disk, gf: int, j: Quad, Dl: nat, store: bool, mpiSize: nat,
                   f: Found, idim: int, kdimAbsMax: nat, lsize: seq<nat>)
    returns (b4t: Tensor, disk': Disk, calls: seq<Quad>)
    requires 0 < mpiSize && DiskShaped(env, disk) && Fits(env, gf, j, Dl) && Computes(env, disk, gf, j, Dl)
    requires f == FoundFor(disk, gf, j, Dl) && idim == Extent(j) && kdimAbsMax == env.kbound(gf, j, 2 * Dl)
    requires lsize == FillLdim(gf, Dl + 1).value
    ensures b4t == Filled(env, disk, gf, j, Dl)
    ensures disk' == if store then disk[Key(gf, j, Dl) := b4t] else disk
    ensures forall l :: l in calls <==> l in Needed(env, disk, gf, j, Dl)
  {
    var job := Job(gf, j, Dl, kdimAbsMax, f, env.kernel);
    assert job == JobFor(env, disk, gf, j, Dl);
    var sum;
    sum, calls := RunRanks(job, mpiSize);
    FilledParts(env, disk, gf, j, Dl);
    b4t := Tensor([idim as nat, kdimAbsMax] + lsize, sum);
    disk' := disk;
    if store {
      disk' := disk[Key(gf, j, Dl) := b4t];
    }
  }

  /** sl2cfoam_boosters with mpiSize ranks. Besides the reply and the new
      disk it returns the points at which the kernel was called. */
  method Boosters(env: Env, disk: Disk, gf: int, j: Quad, Dl: nat, store: bool, mpiSize: nat)
    returns (r: Result<Reply>, disk': Disk, calls: seq<Quad>)
    requires 0 < mpiSize && DiskShaped(env, disk) && Fits(env, gf, j, Dl)
    ensures Outcome(r, disk') == Boost(env, disk, gf, j, Dl, store)
    ensures forall l :: l in calls <==> l in Needed(env, disk, gf, j, Dl)
  {
    disk', calls := disk, [];
    if Dl > DL_MAX {
      return Err(TooManyShells), disk', calls;
    }
    var twoDl := 2 * Dl;
    var twoIMin := Max(Abs(j.a - j.b), Abs(j.c - j.d));
    var twoIMax := Min(j.a + j.b, j.c + j.d);
    var ldim := Dl + 1;
    var idim := Div2(twoIMax - twoIMin) + 1;
    var kdimAbsMax := env.kbound(gf, j, twoDl);
    if kdimAbsMax == 0 {
      return Ok(Degenerate), disk', calls;
    }
    var stored := Depths(disk, gf, j);
    var found, twoDlFound := SearchCache(stored, Dl);
    ghost var hit := Resolve(stored, Dl);
    var exact := found && twoDlFound == twoDl;
    var f := NotFound;
    if exact {
      // TENSOR_LOAD of the exact tensor
      r := Ok(Returned(disk[Key(gf, j, Dl)]));
    } else if found {
      // TENSOR_LOAD of the tensor to start from
      assert hit.Partial? && twoDlFound / 2 == hit.dl && hit.dl in stored;
      f := Found(disk[Key(gf, j, twoDlFound / 2)], twoDlFound);
      assert f == FoundFor(disk, gf, j, Dl);
    }
    // the extents of the tensor; a bad gauge is fatal here
    var lsize := FillLdim(gf, ldim);
    if lsize.Err? {
      return Err(BadGauge), disk', calls;
    }
    if exact {
      return r, disk', calls;
    }
    if idim < 0 {
      // TENSOR_CREATE with a wrapped-around size_t extent
      return Err(ExtentOverflow), disk', calls;
    }
    assert f == FoundFor(disk, gf, j, Dl);
    var b4t;
    b4t, disk', calls := FillStage(env, disk, gf, j, Dl, store, mpiSize, f, idim, kdimAbsMax, lsize.value);
    r := Ok(Returned(b4t));
  }

  // ----- what a request promises -----

  /** The fatal errors, each exactly under its condition. */
  lemma BoostErrors(env: Env, disk: Disk, gf: int, j: Quad, Dl: nat, store: bool)
    requires DiskShaped(env, disk) && Fits(env, gf, j, Dl)
    ensures var o := Boost(env, disk, gf, j, Dl, store);
      (o.reply == Err(TooManyShells) <==> Dl > DL_MAX) &&
      (o.reply == Err(BadGauge) <==> Dl <= DL_MAX && env.kbound(gf, j, 2 * Dl) > 0 && !ValidGauge(gf)) &&
      (o.reply == Err(ExtentOverflow) <==>
         Dl <= DL_MAX && env.kbound(gf, j, 2 * Dl) > 0 && ValidGauge(gf) && Extent(j) < 0) &&
      (o.reply.Err? ==> o.disk == disk)
  {
    if Key(gf, j, Dl) in disk {
      assert Canonical(env, Key(gf, j, Dl), disk[Key(gf, j, Dl)]);
    }
  }

  /** NULL comes back exactly when kdim_absmax is 0, before any search. */
  lemma BoostDegenerate(env: Env, disk: Disk, gf: int, j: Quad, Dl: nat, store: bool)
    requires DiskShaped(env, disk) && Fits(env, gf, j, Dl)
    ensures var o := Boost(env, disk, gf, j, Dl, store);
      (o.reply == Ok(Degenerate) <==> Dl <= DL_MAX && env.kbound(gf, j, 2 * Dl) == 0) &&
      (o.reply == Ok(Degenerate) ==> o.disk == disk && Needed(env, disk, gf, j, Dl) == {})
  {
  }

  /** A tensor on disk under the requested depth is returned as it is:
      nothing is stored and the kernel is not called. */
  lemma BoostExact(env: Env, disk: Disk, gf: int, j: Quad, Dl: nat, store: bool)
    requires DiskShaped(env, disk) && Fits(env, gf, j, Dl)
    requires Dl <= DL_MAX && env.kbound(gf, j, 2 * Dl) > 0 && ValidGauge(gf) && Key(gf, j, Dl) in disk
    ensures Boost(env, disk, gf, j, Dl, store) == Outcome(Ok(Returned(disk[Key(gf, j, Dl)])), disk)
    ensures Needed(env, disk, gf, j, Dl) == {}
  {
  }

  /** Every tensor a request returns has the engine's shape for its key,
      and the disk keeps only such tensors. */
  lemma BoostShaped(env: Env, disk: Disk, gf: int, j: Quad, Dl: nat, store: bool)
    requires DiskShaped(env, disk) && Fits(env, gf, j, Dl)
    ensures var o := Boost(env, disk, gf, j, Dl, store);
      DiskShaped(env, o.disk) &&
      (o.reply.Ok? && o.reply.value.Returned? ==>
        Canonical(env, Key(gf, j, Dl), o.reply.value.t) && WellFormed(o.reply.value.t))
  {
    var k := Key(gf, j, Dl);
    if Computes(env, disk, gf, j, Dl) {
      StoreShaped(env, disk, k, Filled(env, disk, gf, j, Dl));
    } else if k in disk {
      assert Canonical(env, k, disk[k]);
    }
  }

  lemma StoreShaped(env: Env, disk: Disk, k: Key, t: Tensor)
    requires DiskShaped(env, disk) && Canonical(env, k, t)
    ensures DiskShaped(env, disk[k := t])
  {
  }

  /** A request writes at most one tensor: the one it returns, under its
      own key, and only when asked to store. */
  lemma BoostWrites(env: Env, disk: Disk, gf: int, j: Quad, Dl: nat, store: bool)
    requires DiskShaped(env, disk) && Fits(env, gf, j, Dl)
    ensures var o := Boost(env, disk, gf, j, Dl, store);
      o.disk == disk ||
      (store && o.reply.Ok? && o.reply.value.Returned? && o.disk == disk[Key(gf, j, Dl) := o.reply.value.t])
  {
  }

  /** Asking again after a stored request returns the same answer from
      disk and changes nothing. */
  lemma BoostIdempotent(env: Env, disk: Disk, gf: int, j: Quad, Dl: nat, store: bool)
    requires DiskShaped(env, disk) && Fits(env, gf, j, Dl)
    ensures DiskShaped(env, Boost(env, disk, gf, j, Dl, true).disk)
    ensures var o := Boost(env, disk, gf, j, Dl, true);
      o.reply.Ok? ==> Boost(env, o.disk, gf, j, Dl, store) == o
    ensures var o := Boost(env, disk, gf, j, Dl, true);
      o.reply.Ok? ==> Needed(env, o.disk, gf, j, Dl) == {}
    ensures var o := Boost(env, disk, gf, j, Dl, true);
      o.reply.Ok? && o.reply.value.Returned? ==> Resolve(Depths(o.disk, gf, j), Dl) == Exact
  {
    BoostShaped(env, disk, gf, j, Dl, true);
    var o := Boost(env, disk, gf, j, Dl, true);
    if o.reply.Ok? && o.reply.value.Returned? {
      assert Dl in Depths(o.disk, gf, j);
    }
  }

  /** Starting from a deeper tensor, the kernel is never called. */
  lemma DeeperNoKernel(env: Env, disk: Disk, gf: int, j: Quad, Dl: nat)
    requires DiskShaped(env, disk) && Fits(env, gf, j, Dl)
    requires Resolve(Depths(disk, gf, j), Dl).Partial? && Resolve(Depths(disk, gf, j), Dl).dl > Dl
    ensures Needed(env, disk, gf, j, Dl) == {}
  {
    if Computes(env, disk, gf, j, Dl) {
      var job := JobFor(env, disk, gf, j, Dl);
      forall l | l in Points(job)
        ensures Decide(job, l) != Compute
      {
      }
    }
  }

  /** With depths 1 and 3 on disk, a request for depth 2 starts from the
      tensor of depth 3 and copies all its blocks. */
  lemma PrefersDeeper(env: Env, disk: Disk, gf: int, j: Quad)
    requires DiskShaped(env, disk) && Fits(env, gf, j, 2)
    requires Depths(disk, gf, j) == {1, 3}
    ensures FoundFor(disk, gf, j, 2) == Found(disk[Key(gf, j, 3)], 6)
    ensures Needed(env, disk, gf, j, 2) == {}
  {
    SearchPrefersLarger();
    DeeperNoKernel(env, disk, gf, j, 2);
  }

  // ----- a disk of consistent tensors -----

  /** Every stored tensor is the one the engine computes for its key from
      scratch, with no tensor to start from. */
  ghost predicate Consistent(env: Env, disk: Disk)
  {
    DiskShaped(env, disk) &&
    forall k :: k in disk ==>
      KernelShaped(Request(env, k.gf, k.j, k.dl, NotFound)) &&
      disk[k].data == FullBuffer(Request(env, k.gf, k.j, k.dl, NotFound))
  }

  /** From an empty disk the fill starts from nothing. */
  lemma ScratchJob(env: Env, gf: int, j: Quad, Dl: nat)
    requires Fits(env, gf, j, Dl) && Computes(env, map[], gf, j, Dl)
    ensures JobFor(env, map[], gf, j, Dl) == Request(env, gf, j, Dl, NotFound)
  {
    assert Depths(map[], gf, j) == {};
  }

  /** An exact tensor of a consistent disk is the one computed from scratch. */
  lemma ExactIsScratch(env: Env, disk: Disk, gf: int, j: Quad, Dl: nat)
    requires Consistent(env, disk) && Fits(env, gf, j, Dl)
    requires Dl <= DL_MAX && env.kbound(gf, j, 2 * Dl) > 0 && ValidGauge(gf) && Key(gf, j, Dl) in disk
    ensures Computes(env, map[], gf, j, Dl)
    ensures disk[Key(gf, j, Dl)] == Filled(env, map[], gf, j, Dl)
  {
    var k := Key(gf, j, Dl);
    assert Canonical(env, k, disk[k]);
    assert Depths(map[], gf, j) == {};
    ScratchJob(env, gf, j, Dl);
    FilledParts(env, map[], gf, j, Dl);
  }

  /** A partial or missing hit on a consistent disk fills the tensor
      computed from scratch. */
  lemma FilledIsScratch(env: Env, disk: Disk, gf: int, j: Quad, Dl: nat)
    requires Consistent(env, disk) && Fits(env, gf, j, Dl) && Computes(env, disk, gf, j, Dl)
    ensures Computes(env, map[], gf, j, Dl)
    ensures Filled(env, disk, gf, j, Dl) == Filled(env, map[], gf, j, Dl)
  {
    assert Depths(map[], gf, j) == {};
    ScratchJob(env, gf, j, Dl);
    var job := JobFor(env, disk, gf, j, Dl);
    FilledParts(env, disk, gf, j, Dl);
    FilledParts(env, map[], gf, j, Dl);
    if job.found.Found? {
      var dl := Resolve(Depths(disk, gf, j), Dl).dl;
      var k := Key(gf, j, dl);
      assert Canonical(env, k, disk[k]);
      assert Source(job) == Request(env, gf, j, dl, NotFound);
      ReuseTransparent(job);
      assert job.(found := NotFound) == Request(env, gf, j, Dl, NotFound);
    }
  }

  /** The cache is invisible: on a consistent disk a request returns what
      it returns on an empty one. */
  lemma CacheTransparent(env: Env, disk: Disk, gf: int, j: Quad, Dl: nat, store: bool)
    requires Consistent(env, disk) && Fits(env, gf, j, Dl)
    ensures Boost(env, disk, gf, j, Dl, store).reply == Boost(env, map[], gf, j, Dl, store).reply
  {
    assert Depths(map[], gf, j) == {};
    if Dl <= DL_MAX && env.kbound(gf, j, 2 * Dl) > 0 && ValidGauge(gf) {
      if Key(gf, j, Dl) in disk {
        ExactIsScratch(env, disk, gf, j, Dl);
      } else if Extent(j) >= 0 {
        FilledIsScratch(env, disk, gf, j, Dl);
      }
    }
  }

  /** Storing keeps the disk consistent. */
  lemma BoostConsistent(env: Env, disk: Disk, gf: int, j: Quad, Dl: nat, store: bool)
    requires Consistent(env, disk) && Fits(env, gf, j, Dl)
    ensures Consistent(env, Boost(env, disk, gf, j, Dl, store).disk)
  {
    BoostShaped(env, disk, gf, j, Dl, store);
    if Computes(env, disk, gf, j, Dl) && store {
      FilledIsScratch(env, disk, gf, j, Dl);
      ScratchJob(env, gf, j, Dl);
      FilledParts(env, map[], gf, j, Dl);
    }
  }

  // ----- requests of different gauges do not see each other -----

  /** Two disks hold the same tensors under every key of gauge gf. */
  ghost predicate SameGauge(d1: Disk, d2: Disk, gf: int)
  {
    forall k: Key :: k.gf == gf ==> (k in d1 <==> k in d2) && (k in d1 ==> d1[k] == d2[k])
  }

  /** A request reads only the tensors of its own gauge. */
  lemma GaugeView(env: Env, d1: Disk, d2: Disk, gf: int, j: Quad, Dl: nat, store: bool)
    requires DiskShaped(env, d1) && DiskShaped(env, d2) && Fits(env, gf, j, Dl)
    requires SameGauge(d1, d2, gf)
    ensures Boost(env, d1, gf, j, Dl, store).reply == Boost(env, d2, gf, j, Dl, store).reply
  {
    assert Depths(d1, gf, j) == Depths(d2, gf, j);
    assert FoundFor(d1, gf, j, Dl) == FoundFor(d2, gf, j, Dl);
  }

  /** A request writes only under its own key, so other gauges keep their view. */
  lemma GaugeKept(env: Env, disk: Disk, gf: int, j: Quad, Dl: nat, store: bool, g: int)
    requires DiskShaped(env, disk) && Fits(env, gf, j, Dl) && g != gf
    ensures SameGauge(disk, Boost(env, disk, gf, j, Dl, store).disk, g)
  {
  }
}
