/** The fill stage of a booster request: for each virtual-spin point a rank
    owns, either nothing (no intertwiner k allowed), a copy of the point's
    block from a tensor found on disk, or a call to the booster kernel;
    then the element-wise sum of the ranks' buffers. */
module Fill {
  import opened Shape
  import opened Layout
  import opened Enumeration

  /** The tensor the cache search found, at doubled depth twoDl, if any. */
  datatype Found = NotFound | Found(t: Tensor, twoDl: int)

  /** What the fill does at one virtual-spin point. */
  datatype Action = Skip | Copy | Compute

  /** One request in the fill stage: gauge, boundary spins, shell depth,
      kdim_absmax (the k extent of the result), the found tensor and the
      booster kernel, which maps the boundary spins and a virtual-spin point
      to the idim x kdim matrix of that point, column-major. */
  datatype Job = Job(gf: int, j: Quad, Dl: nat, kmax: nat, found: Found,
                     kernel: (Quad, Quad) -> seq<real>)

  /** The l_max quadruple of the request. */
  function LMax(job: Job): Quad
    requires ValidGauge(job.gf)
  {
    ShellMax(job.gf, job.j, 2 * job.Dl)
  }

  /** The virtual-spin points of the request, in enumeration order. */
  function Points(job: Job): seq<Quad>
    requires ValidGauge(job.gf)
  {
    Grid(job.j, LMax(job))
  }

  /** idim: the extent of the boundary intertwiner range. */
  function IDim(job: Job): nat
    requires Extent(job.j) >= 0
  {
    Extent(job.j)
  }

  /** Entries per virtual-spin point in the result: idim * kdim_absmax. */
  function Width(job: Job): nat
    requires Extent(job.j) >= 0
  {
    IDim(job) * job.kmax
  }

  /** Entries of the result: one block per virtual-spin point. */
  function Size(job: Job): nat
    requires ValidGauge(job.gf) && Extent(job.j) >= 0
  {
    |Points(job)| * Width(job)
  }

  /** Where the block of the x-th enumerated point starts in the result's data. */
  function BlockOffset(job: Job, x: nat): nat
    requires Extent(job.j) >= 0
  {
    x * Width(job)
  }

  /** Entries copied per point from a found tensor: memcpy's
      idim * min(kdim_absmax, dims[1] of the found tensor). */
  function CopyLen(job: Job): nat
    requires Extent(job.j) >= 0 && job.found.Found? && |job.found.t.dims| == 6
  {
    IDim(job) * Min(job.kmax, job.found.t.dims[1])
  }

  /** Every axis of l is at most the matching axis of m. */
  predicate Below(l: Quad, m: Quad)
  {
    l.a <= m.a && l.b <= m.b && l.c <= m.c && l.d <= m.d
  }

  /** A found tensor has the shape the engine gives a tensor of its depth:
      idim rows, some k extent, fill_ldim's four l extents, dense data. */
  predicate FoundShaped(job: Job)
    requires ValidGauge(job.gf) && Extent(job.j) >= 0
  {
    job.found.Found? ==>
      var t := job.found.t;
      0 <= job.found.twoDl && job.found.twoDl % 2 == 0 &&
      |t.dims| == 6 && t.dims[0] == IDim(job) &&
      t.dims[2..] == FillLdim(job.gf, job.found.twoDl / 2 + 1).value &&
      |t.data| == Product(t.dims)
  }

  /** The kernel returns an idim x kdim matrix at every point with a
      non-empty k range, and kdim_absmax bounds every such kdim. */
  ghost predicate KernelShaped(job: Job)
    requires ValidGauge(job.gf) && Extent(job.j) >= 0
  {
    forall l :: InGrid(l, job.j, LMax(job)) && TwoMin(l) <= TwoMax(l) ==>
      Extent(l) <= job.kmax && |job.kernel(job.j, l)| == IDim(job) * Extent(l)
  }

  ghost predicate Valid(job: Job)
  {
    ValidGauge(job.gf) && Extent(job.j) >= 0 && KernelShaped(job) && FoundShaped(job)
  }

  lemma DimsProduct(job: Job, l: seq<nat>, d: seq<nat>)
    requires Valid(job) && l == FillLdim(job.gf, job.Dl + 1).value
    requires d == [IDim(job), job.kmax] + l
    ensures |d| == 6 && d[2..] == Counts(job.j, LMax(job))
    ensures Product(d) == Size(job)
  {
    ShellGrid(job.gf, job.j, job.Dl);
    assert d[2..] == l;
    var n := |Points(job)|;
    assert Product(d[2..]) == n;
    Product6(d);
    assert Product(d) == IDim(job) * (job.kmax * n);
    MulRotate(IDim(job), job.kmax, n);
  }

  /** The extents of the result tensor: idim, kdim_absmax and fill_ldim(gf, Dl+1). */
  function Dims(job: Job): (d: seq<nat>)
    requires Valid(job)
    ensures |d| == 6 && d[0] == IDim(job) && d[1] == job.kmax
    ensures d[2..] == Counts(job.j, LMax(job))
    ensures Product(d) == Size(job)
  {
    var l := FillLdim(job.gf, job.Dl + 1).value;
    var d := [IDim(job), job.kmax] + l;
    DimsProduct(job, l, d);
    d
  }

  /** The branch the fill loop takes at point l. */
  function Decide(job: Job, l: Quad): (a: Action)
    requires ValidGauge(job.gf)
    ensures a == Skip <==> TwoMax(l) < TwoMin(l)
    ensures a == Copy ==> job.found.Found?
    ensures a == Compute ==> !job.found.Found? || job.found.twoDl <= 2 * job.Dl
  {
    if TwoMax(l) < TwoMin(l) then Skip
    else if job.found.Found? && 2 * job.Dl < job.found.twoDl then Copy
    else if job.found.Found? && Below(l, ShellMax(job.gf, job.j, job.found.twoDl)) then Copy
    else Compute
  }

  /** A point of the shell of doubled depth twoDl that a deeper shell
      twoDlF contains, or that lies below that shell's maxima, is a point of
      the shell twoDlF, and its offsets are within fill_ldim's extents there. */
  lemma ShellCovers(gf: int, j: Quad, twoDl: int, twoDlF: int, l: Quad)
    requires ValidGauge(gf) && 0 <= twoDlF && twoDlF % 2 == 0
    requires InGrid(l, j, ShellMax(gf, j, twoDl))
    requires twoDl < twoDlF || Below(l, ShellMax(gf, j, twoDlF))
    ensures InGrid(l, j, ShellMax(gf, j, twoDlF))
    ensures InBounds(FillLdim(gf, twoDlF / 2 + 1).value, Offsets(j, l))
  {
    var m := ShellMax(gf, j, twoDlF);
    if twoDl < twoDlF {
      ShellMaxMonotone(gf, j, twoDl, twoDlF);
      assert m.At(0) == m.a && m.At(1) == m.b && m.At(2) == m.c && m.At(3) == m.d;
      var n := ShellMax(gf, j, twoDl);
      assert n.At(0) == n.a && n.At(1) == n.b && n.At(2) == n.c && n.At(3) == n.d;
    }
    ShiftedOffsets(j, m, l);
    ShellGrid(gf, j, twoDlF / 2);
  }

  /** A point the fill copies lies in the found tensor's own grid, so its
      block exists there. */
  lemma CopyInFound(job: Job, l: Quad)
    requires Valid(job) && InGrid(l, job.j, LMax(job)) && Decide(job, l) == Copy
    ensures InGrid(l, job.j, ShellMax(job.gf, job.j, job.found.twoDl))
    ensures InBounds(job.found.t.dims[2..], Offsets(job.j, l))
  {
    ShellCovers(job.gf, job.j, 2 * job.Dl, job.found.twoDl, l);
  }

  /** The range the fill copies from the found tensor lies inside its data,
      and is no longer than a block of the result. */
  lemma CopyRange(job: Job, l: Quad)
    requires Valid(job) && InGrid(l, job.j, LMax(job)) && Decide(job, l) == Copy
    ensures var t := job.found.t;
      var s := Index6(t.dims, 0, 0, Offsets(job.j, l));
      0 <= s && s + CopyLen(job) <= |t.data| &&
      CopyLen(job) <= Width(job) &&
      s == Index4(t.dims[2..], Offsets(job.j, l)) * (IDim(job) * t.dims[1])
  {
    var t := job.found.t;
    CopyInFound(job, l);
    CopyWindow(t.dims, Offsets(job.j, l), Min(job.kmax, t.dims[1]));
    MulLe(IDim(job), Min(job.kmax, t.dims[1]), job.kmax);
  }

  /** The kernel's matrix at a point the fill computes fits in a block. */
  lemma ComputeShape(job: Job, l: Quad)
    requires Valid(job) && InGrid(l, job.j, LMax(job)) && Decide(job, l) == Compute
    ensures |job.kernel(job.j, l)| == IDim(job) * Extent(l) <= Width(job)
  {
    MulLe(IDim(job), Extent(l), job.kmax);
  }

  /** The entries the fill writes at point l: none, the copied range of the
      found tensor, or the kernel's matrix. */
  function Vals(job: Job, l: Quad): (v: seq<real>)
    requires Valid(job) && InGrid(l, job.j, LMax(job))
    ensures |v| <= Width(job)
  {
    match Decide(job, l)
    case Skip => []
    case Copy =>
      CopyRange(job, l);
      var t := job.found.t;
      var s := Index6(t.dims, 0, 0, Offsets(job.j, l));
      t.data[s .. s + CopyLen(job)]
    case Compute =>
      ComputeShape(job, l);
      job.kernel(job.j, l)
  }

  /** The block of point l in the result: the written entries, then the
      zeros the tensor was created with. */
  function Block(job: Job, l: Quad): (b: seq<real>)
    requires Valid(job) && InGrid(l, job.j, LMax(job))
    ensures |b| == Width(job)
    ensures b[..|Vals(job, l)|] == Vals(job, l)
    ensures forall x :: |Vals(job, l)| <= x < Width(job) ==> b[x] == 0.0
  {
    Vals(job, l) + Zeros(Width(job) - |Vals(job, l)|)
  }

  /** The entries written for the x-th enumerated point. */
  function ValsAt(job: Job, x: nat): (v: seq<real>)
    requires Valid(job) && x < |Points(job)|
    ensures |v| <= Width(job)
  {
    GridAt(job.j, LMax(job), x);
    Vals(job, Points(job)[x])
  }

  /** The block of the x-th enumerated point. */
  function BlockAt(job: Job, x: nat): (b: seq<real>)
    requires Valid(job) && x < |Points(job)|
    ensures |b| == Width(job)
  {
    GridAt(job.j, LMax(job), x);
    Block(job, Points(job)[x])
  }

  /** A rank's blocks after it has filled its first done owned points:
      those blocks are in place, all others are still zero. */
  function RankBlocks(job: Job, rank: nat, size: nat, done: nat): (bs: seq<seq<real>>)
    requires Valid(job) && 0 < size
    ensures |bs| == |Points(job)| && Uniform(bs, Width(job))
  {
    seq(|Points(job)|, x requires 0 <= x < |Points(job)| =>
      if x % size == rank && x / size < done then BlockAt(job, x) else Zeros(Width(job)))
  }

  /** The buffer a rank holds before the reduction: the blocks of all the
      points it owns, zero elsewhere. */
  function RankBuffer(job: Job, rank: nat, size: nat): (d: seq<real>)
    requires Valid(job) && 0 < size
    ensures |d| == Size(job)
  {
    var bs := RankBlocks(job, rank, size, |Points(job)|);
    ConcatLength(bs, Width(job));
    Concat(bs)
  }

  /** Every point's block, in enumeration order. */
  function AllBlocks(job: Job): (bs: seq<seq<real>>)
    requires Valid(job)
    ensures |bs| == |Points(job)| && Uniform(bs, Width(job))
  {
    seq(|Points(job)|, x requires 0 <= x < |Points(job)| => BlockAt(job, x))
  }

  /** The result's data: every point's block, in tensor order. */
  function FullBuffer(job: Job): (d: seq<real>)
    requires Valid(job)
    ensures |d| == Size(job)
  {
    ConcatLength(AllBlocks(job), Width(job));
    Concat(AllBlocks(job))
  }

  /** The block of the x-th enumerated point sits at its offset in the result. */
  lemma FullBufferBlock(job: Job, x: nat)
    requires Valid(job) && x < |Points(job)|
    ensures InGrid(Points(job)[x], job.j, LMax(job))
    ensures BlockOffset(job, x) + Width(job) <= |FullBuffer(job)|
    ensures FullBuffer(job)[BlockOffset(job, x) .. BlockOffset(job, x) + Width(job)] == Block(job, Points(job)[x])
  {
    GridAt(job.j, LMax(job), x);
    ConcatSlice(AllBlocks(job), Width(job), x);
    BlockEnd(Width(job), x, |Points(job)|);
  }

  /** The points among pts for which the fill calls the kernel, in order. */
  function Computed(job: Job, pts: seq<Quad>): (c: seq<Quad>)
    requires ValidGauge(job.gf)
    ensures forall l :: l in c ==> l in pts && Decide(job, l) == Compute
  {
    if |pts| == 0 then []
    else
      var last := pts[|pts| - 1];
      Computed(job, pts[..|pts| - 1]) + (if Decide(job, last) == Compute then [last] else [])
  }

  /** Every point that needs the kernel gets it. */
  lemma {:induction false} ComputedComplete(job: Job, pts: seq<Quad>, l: Quad)
    requires ValidGauge(job.gf) && l in pts && Decide(job, l) == Compute
    ensures l in Computed(job, pts)
  {
    var m := |pts| - 1;
    if pts[m] != l {
      assert l in pts[..m];
      ComputedComplete(job, pts[..m], l);
    }
  }

  /** With a deeper tensor found, the kernel is never called. */
  lemma {:induction false} DeeperNoCompute(job: Job, pts: seq<Quad>)
    requires ValidGauge(job.gf) && job.found.Found? && 2 * job.Dl < job.found.twoDl
    ensures Computed(job, pts) == []
  {
    if |pts| > 0 {
      DeeperNoCompute(job, pts[..|pts| - 1]);
    }
  }

  /** The block of the x-th enumerated point starts at x * Width in the
      result's data: TENSOR_INDEX(b4t, 0, 0, offsets of the point). */
  lemma BlockPosition(job: Job, x: nat)
    requires Valid(job) && x < |Points(job)|
    ensures InGrid(Points(job)[x], job.j, LMax(job))
    ensures BlockOffset(job, x) == Index6(Dims(job), 0, 0, Offsets(job.j, Points(job)[x]))
  {
    GridAt(job.j, LMax(job), x);
    var o := Offsets(job.j, Points(job)[x]);
    var d := Dims(job);
    BlockStart(d, o);
    var w := Width(job);
    assert d[0] * d[1] == w;
    assert Index4(d[2..], o) == x;
    assert Index6(d, 0, 0, o) == w * x;
  }

  /** Point lind of a rank's share: its enumeration index x, its block's
      position in the tensor, and the blocks after it is filled. */
  lemma FillStep(job: Job, rank: nat, size: nat, lind: nat)
    requires Valid(job) && 0 < size && rank < size
    requires lind < |Owned(Points(job), rank, size)|
    ensures var x := Slot(rank, size, lind);
      x < |Points(job)| && Owned(Points(job), rank, size)[lind] == Points(job)[x] &&
      InGrid(Points(job)[x], job.j, LMax(job)) &&
      BlockOffset(job, x) == Index6(Dims(job), 0, 0, Offsets(job.j, Points(job)[x])) &&
      RankBlocks(job, rank, size, lind)[x] == Zeros(Width(job)) &&
      RankBlocks(job, rank, size, lind)[x := BlockAt(job, x)] == RankBlocks(job, rank, size, lind + 1)
  {
    var pts := Points(job);
    var x := Slot(rank, size, lind);
    OwnedStride(pts, rank, size);
    GridAt(job.j, LMax(job), x);
    BlockPosition(job, x);
    BlocksAdvance(job, rank, size, lind);
  }

  /** Filling the point at index Slot(rank, size, lind) turns RankBlocks for
      lind points into RankBlocks for lind + 1 points. */
  lemma BlocksAdvance(job: Job, rank: nat, size: nat, lind: nat)
    requires Valid(job) && 0 < size && rank < size
    requires Slot(rank, size, lind) < |Points(job)|
    ensures var x := Slot(rank, size, lind);
      RankBlocks(job, rank, size, lind)[x] == Zeros(Width(job)) &&
      RankBlocks(job, rank, size, lind)[x := BlockAt(job, x)] == RankBlocks(job, rank, size, lind + 1)
  {
    var x := Slot(rank, size, lind);
    DivMod(x, size, lind, rank);
    var before := RankBlocks(job, rank, size, lind);
    var after := RankBlocks(job, rank, size, lind + 1);
    forall y | 0 <= y < |before|
      ensures before[x := BlockAt(job, x)][y] == after[y]
    {
      if y != x && y % size == rank && y / size == lind {
        Euclid(y, size);
        assert false;
      }
    }
  }

  /** Writing the entries of point lind of a rank's share at its block's
      position fills that block: the memcpy of the fill loop. */
  lemma FillAdvance(job: Job, rank: nat, size: nat, lind: nat, x: nat)
    requires Valid(job) && 0 < size && rank < size
    requires lind < |Owned(Points(job), rank, size)|
    requires x == Slot(rank, size, lind) && x < |Points(job)|
    ensures |Concat(RankBlocks(job, rank, size, lind))| == Size(job)
    ensures BlockOffset(job, x) + |ValsAt(job, x)| <= Size(job)
    ensures Write(Concat(RankBlocks(job, rank, size, lind)), BlockOffset(job, x), ValsAt(job, x)) ==
            Concat(RankBlocks(job, rank, size, lind + 1))
  {
    var w := Width(job);
    FillStep(job, rank, size, lind);
    var bs := RankBlocks(job, rank, size, lind);
    var v := ValsAt(job, x);
    WriteBlock(bs, w, x, v);
    var filled := v + bs[x][|v|..];
    assert filled == BlockAt(job, x);
    assert bs[x := filled] == RankBlocks(job, rank, size, lind + 1);
  }

  /** Before the fill loop every block is zero. */
  lemma RankBlocksStart(job: Job, rank: nat, size: nat)
    requires Valid(job) && 0 < size
    ensures Concat(RankBlocks(job, rank, size, 0)) == Zeros(Size(job))
  {
    var bs := RankBlocks(job, rank, size, 0);
    forall x | 0 <= x < |bs|
      ensures bs[x] == Zeros(Width(job))
    {
      Euclid(x, size);
    }
    ConcatZeros(bs, Width(job));
  }

  /** Once every owned point is filled, the rank holds its buffer. */
  lemma RankBlocksDone(job: Job, rank: nat, size: nat)
    requires Valid(job) && 0 < size && rank < size
    ensures Concat(RankBlocks(job, rank, size, |Owned(Points(job), rank, size)|)) == RankBuffer(job, rank, size)
  {
    var pts := Points(job);
    var bs := RankBlocks(job, rank, size, |Owned(pts, rank, size)|);
    var all := RankBlocks(job, rank, size, |pts|);
    forall x | 0 <= x < |pts|
      ensures bs[x] == all[x]
    {
      Euclid(x, size);
      MulLe(x / size, 1, size);
      if x % size == rank {
        PartitionCover(pts, size, x);
      }
    }
    assert bs == all;
  }

  /** The windows the fill writes at two different points do not overlap. */
  lemma WindowsDisjoint(job: Job, x: nat, y: nat)
    requires Valid(job) && x < y < |Points(job)|
    ensures BlockOffset(job, x) + |ValsAt(job, x)| <= BlockOffset(job, y)
    ensures BlockOffset(job, y) + |ValsAt(job, y)| <= Size(job)
  {
    var w := Width(job);
    MulLe(w, x + 1, y);
    assert w * (x + 1) == x * w + w;
    BlockEnd(w, y, |Points(job)|);
  }

  /** So two steps of the fill loop give the same buffer in either order. */
  lemma StepsCommute(job: Job, buf: seq<real>, x: nat, y: nat)
    requires Valid(job) && x < y < |Points(job)| && |buf| == Size(job)
    ensures BlockOffset(job, y) + |ValsAt(job, y)| <= |buf|
    ensures var ox, oy, vx, vy := BlockOffset(job, x), BlockOffset(job, y), ValsAt(job, x), ValsAt(job, y);
      ox + |vx| <= |buf| &&
      Write(Write(buf, ox, vx), oy, vy) == Write(Write(buf, oy, vy), ox, vx)
  {
    WindowsDisjoint(job, x, y);
    WriteCommute(buf, BlockOffset(job, x), ValsAt(job, x), BlockOffset(job, y), ValsAt(job, y));
  }

  /** memcpy of vals into buf at position dst. */
  method Memcpy(buf: array<real>, dst: nat, vals: seq<real>)
    requires dst + |vals| <= buf.Length
    modifies buf
    ensures buf[..] == Write(old(buf[..]), dst, vals)
  {
    forall t | 0 <= t < |vals| {
      buf[dst + t] := vals[t];
    }
  }

  /** The body of the fill loop at point l, up to the memcpy: skip when no
      intertwiner k is allowed, else copy from the found tensor when it is
      deeper or covers l, else call the kernel. Returns the entries to
      write and whether the kernel was called. The executable twin of
      the function Vals, to which it is proved equal; the properties of the
      fill are proved about Vals. */
  method PointVals(job: Job, l: Quad) returns (vals: seq<real>, computed: bool)
    requires Valid(job) && InGrid(l, job.j, LMax(job))
    ensures vals == Vals(job, l)
    ensures computed <==> Decide(job, l) == Compute
  {
    var twoKMin := Max(Abs(l.a - l.b), Abs(l.c - l.d));
    var twoKMax := Min(l.a + l.b, l.c + l.d);
    vals, computed := [], false;
    if twoKMax < twoKMin {
      return;
    }
    if job.found.Found? && 2 * job.Dl < job.found.twoDl {
      // the found tensor is deeper: every block is there
      CopyRange(job, l);
      var t := job.found.t;
      var src := Index6(t.dims, 0, 0, Offsets(job.j, l));
      vals := t.data[src .. src + CopyLen(job)];
      return;
    }
    if job.found.Found? && Below(l, ShellMax(job.gf, job.j, job.found.twoDl)) {
      // the found tensor is shallower but covers l
      CopyRange(job, l);
      var t := job.found.t;
      var src := Index6(t.dims, 0, 0, Offsets(job.j, l));
      vals := t.data[src .. src + CopyLen(job)];
      return;
    }
    vals, computed := job.kernel(job.j, l), true;
  }

  /** One pass of the fill loop, at the lind-th owned point: compute its
      entries and memcpy them to the point's block of the rank's buffer. */
  method FillPoint(job: Job, dims: seq<nat>, todo: seq<Quad>, rank: nat, size: nat, lind: nat, b4t: array<real>)
    returns (computed: bool)
    requires Valid(job) && 0 < size && rank < size && dims == Dims(job)
    requires todo == Owned(Points(job), rank, size) && lind < |todo|
    requires b4t[..] == Concat(RankBlocks(job, rank, size, lind))
    modifies b4t
    ensures b4t[..] == Concat(RankBlocks(job, rank, size, lind + 1))
    ensures computed <==> Decide(job, todo[lind]) == Compute
  {
    var l := todo[lind];
    ghost var x := Slot(rank, size, lind);
    FillStep(job, rank, size, lind);
    FillAdvance(job, rank, size, lind, x);
    var vals;
    vals, computed := PointVals(job, l);
    var dst := Index6(dims, 0, 0, Offsets(job.j, l));
    Memcpy(b4t, dst, vals);
  }

  /** The fill loop of one rank over its owned points ls_todo, writing into
      a zero-initialised tensor buffer. Returns the buffer's contents and
      the points, in order, for which the kernel was called. */
  method FillRank(job: Job, todo: seq<Quad>, rank: nat, size: nat)
    returns (data: seq<real>, calls: seq<Quad>)
    requires Valid(job) && 0 < size && rank < size
    requires todo == Owned(Points(job), rank, size)
    ensures data == RankBuffer(job, rank, size)
    ensures calls == Computed(job, todo)
  {
    var dims := Dims(job);
    var b4t := new real[Size(job)](_ => 0.0);
    RankBlocksStart(job, rank, size);
    assert b4t[..] == Concat(RankBlocks(job, rank, size, 0));
    calls := [];
    for lind := 0 to |todo|
      invariant b4t[..] == Concat(RankBlocks(job, rank, size, lind))
      invariant calls == Computed(job, todo[..lind])
    {
      var computed := FillPoint(job, dims, todo, rank, size, lind, b4t);
      if computed {
        calls := calls + [todo[lind]];
      }
      assert todo[..lind + 1][..lind] == todo[..lind];
    }
    RankBlocksDone(job, rank, size);
    assert todo[..|todo|] == todo;
    data := b4t[..];
  }

  // ----- the reduction over ranks -----

  /** The blocks after the buffers of ranks 0..m-1 are summed. */
  function SumBlocks(job: Job, size: nat, m: nat): (bs: seq<seq<real>>)
    requires Valid(job) && 0 < size
    ensures |bs| == |Points(job)| && Uniform(bs, Width(job))
  {
    seq(|Points(job)|, x requires 0 <= x < |Points(job)| =>
      if x % size < m then BlockAt(job, x) else Zeros(Width(job)))
  }

  /** The buffers of all ranks of a run with size ranks. */
  function RankBuffers(job: Job, size: nat): (bufs: seq<seq<real>>)
    requires Valid(job) && 0 < size
    ensures |bufs| == size && Uniform(bufs, Size(job))
  {
    seq(size, r requires 0 <= r < size => RankBuffer(job, r, size))
  }

  lemma {:induction false} ReducePrefix(job: Job, size: nat, m: nat)
    requires Valid(job) && 0 < size && m <= size
    ensures SumAll(RankBuffers(job, size)[..m], Size(job)) == Concat(SumBlocks(job, size, m))
  {
    var bufs := RankBuffers(job, size);
    var len := Size(job);
    var w := Width(job);
    if m == 0 {
      ConcatZeros(SumBlocks(job, size, 0), w);
    } else {
      ReducePrefix(job, size, m - 1);
      assert bufs[..m][..m - 1] == bufs[..m - 1];
      var prev := SumBlocks(job, size, m - 1);
      var mine := RankBlocks(job, m - 1, size, |Points(job)|);
      assert bufs[m - 1] == Concat(mine);
      AddConcat(prev, mine, w);
      forall x | 0 <= x < |Points(job)|
        ensures Add(prev[x], mine[x]) == SumBlocks(job, size, m)[x]
      {
        Euclid(x, size);
        MulLe(x / size, 1, size);
        AddZeros(prev[x]);
        AddZeros(mine[x]);
      }
      assert seq(|prev|, n requires 0 <= n < |prev| => Add(prev[n], mine[n])) == SumBlocks(job, size, m);
    }
  }

  /** Adding the next rank's buffer to the running sum. */
  lemma ReduceStep(job: Job, size: nat, rank: nat, data: seq<real>)
    requires Valid(job) && rank < size && data == RankBuffer(job, rank, size)
    ensures SumAll(RankBuffers(job, size)[..rank + 1], Size(job)) ==
            Add(SumAll(RankBuffers(job, size)[..rank], Size(job)), data)
  {
    assert RankBuffers(job, size)[..rank + 1][..rank] == RankBuffers(job, size)[..rank];
  }

  /** MPI_Reduce with MPI_SUM: adding the ranks' buffers gives every block
      exactly once, whatever the number of ranks. */
  lemma ReduceIsFull(job: Job, size: nat)
    requires Valid(job) && 0 < size
    ensures SumAll(RankBuffers(job, size), Size(job)) == FullBuffer(job)
    ensures SumAll(RankBuffers(job, size)[..size], Size(job)) == FullBuffer(job)
  {
    ReducePrefix(job, size, size);
    assert RankBuffers(job, size)[..size] == RankBuffers(job, size);
    assert SumBlocks(job, size, size) == AllBlocks(job);
  }

  // ----- reuse of a found tensor -----

  /** The job that computes the found tensor's depth from scratch, with the
      found tensor's own k extent. */
  function Source(job: Job): Job
    requires job.found.Found? && job.found.twoDl >= 0 && |job.found.t.dims| == 6
  {
    Job(job.gf, job.j, job.found.twoDl / 2, job.found.t.dims[1], NotFound, job.kernel)
  }

  /** The from-scratch job of the found tensor has the found tensor's shape
      and its l_max is the engine's l_max for the found depth. */
  lemma SourceShape(job: Job)
    requires Valid(job) && job.found.Found? && Valid(Source(job))
    ensures LMax(Source(job)) == ShellMax(job.gf, job.j, job.found.twoDl)
    ensures Dims(Source(job)) == job.found.t.dims
  {
    var src := Source(job);
    var t := job.found.t;
    assert 2 * src.Dl == job.found.twoDl;
    assert Dims(src)[2..] == t.dims[2..];
  }

  /** The found tensor's block for a point it covers is the block its
      from-scratch job computes there. */
  lemma SourceBlock(job: Job, l: Quad)
    requires Valid(job) && job.found.Found? && InGrid(l, job.j, LMax(job))
    requires Decide(job, l) == Copy
    requires Valid(Source(job)) && job.found.t.data == FullBuffer(Source(job))
    ensures InGrid(l, job.j, LMax(Source(job)))
    ensures var t := job.found.t;
      var s := Index6(t.dims, 0, 0, Offsets(job.j, l));
      0 <= s && s + Width(Source(job)) <= |t.data| &&
      t.data[s .. s + Width(Source(job))] == Block(Source(job), l)
  {
    var src := Source(job);
    var t := job.found.t;
    var o := Offsets(job.j, l);
    CopyInFound(job, l);
    CopyRange(job, l);
    SourceShape(job);
    ShiftedOffsets(job.j, LMax(src), l);
    GridIndex(job.j, LMax(src), o);
    var y := Index4(t.dims[2..], o);
    assert Points(src)[y] == l;
    FullBufferBlock(src, y);
    assert Width(src) == IDim(job) * t.dims[1];
    assert BlockOffset(src, y) == Index6(t.dims, 0, 0, o);
  }

  /** A block the fill computes is the kernel's matrix, then zeros. */
  lemma ComputedBlock(job: Job, l: Quad)
    requires Valid(job) && InGrid(l, job.j, LMax(job)) && Decide(job, l) == Compute
    ensures |job.kernel(job.j, l)| <= Width(job)
    ensures Block(job, l) == job.kernel(job.j, l) + Zeros(Width(job) - |job.kernel(job.j, l)|)
  {
    ComputeShape(job, l);
  }

  /** At such a point the kernel's matrix is no longer than the copied
      range, which is no longer than a block of the found tensor. */
  lemma KernelFitsCopy(job: Job, l: Quad)
    requires Valid(job) && job.found.Found? && InGrid(l, job.j, LMax(job))
    requires Decide(job, l) == Copy && Valid(Source(job))
    ensures |job.kernel(job.j, l)| <= CopyLen(job) <= Width(Source(job))
  {
    var t := job.found.t;
    CopyInFound(job, l);
    SourceShape(job);
    var e := Min(job.kmax, t.dims[1]);
    assert Extent(l) <= e;
    MulLe(IDim(job), Extent(l), e);
    MulLe(IDim(job), e, t.dims[1]);
  }

  /** Where the found tensor holds, at a copied point, the block its
      from-scratch job computes, what the fill copies there is the kernel's
      matrix followed by zeros. */
  lemma CopyIsKernel(job: Job, l: Quad)
    requires Valid(job) && job.found.Found? && InGrid(l, job.j, LMax(job))
    requires Decide(job, l) == Copy && Valid(Source(job))
    requires InGrid(l, job.j, LMax(Source(job)))
    requires var t := job.found.t;
      var s := Index6(t.dims, 0, 0, Offsets(job.j, l));
      0 <= s && s + Width(Source(job)) <= |t.data| &&
      t.data[s .. s + Width(Source(job))] == Block(Source(job), l)
    ensures |job.kernel(job.j, l)| <= CopyLen(job)
    ensures Vals(job, l) == job.kernel(job.j, l) + Zeros(CopyLen(job) - |job.kernel(job.j, l)|)
  {
    var src := Source(job);
    var t := job.found.t;
    assert Decide(src, l) == Compute;
    ComputedBlock(src, l);
    KernelFitsCopy(job, l);
    WindowPrefix(t.data, Index6(t.dims, 0, 0, Offsets(job.j, l)), CopyLen(job), Width(src), job.kernel(job.j, l));
  }

  /** Where a copied block is the kernel's matrix followed by zeros, the
      block equals the one computed without the found tensor. */
  lemma BlockReuse(job: Job, l: Quad)
    requires Valid(job) && job.found.Found? && InGrid(l, job.j, LMax(job))
    requires Decide(job, l) == Copy ==>
      |job.kernel(job.j, l)| <= CopyLen(job) &&
      Vals(job, l) == job.kernel(job.j, l) + Zeros(CopyLen(job) - |job.kernel(job.j, l)|)
    ensures Valid(job.(found := NotFound))
    ensures Block(job, l) == Block(job.(found := NotFound), l)
  {
    var scratch := job.(found := NotFound);
    assert Valid(scratch);
    if Decide(job, l) == Copy {
      var k := job.kernel(job.j, l);
      CopyRange(job, l);
      assert Decide(scratch, l) == Compute;
      assert Block(job, l) == k + Zeros(CopyLen(job) - |k|) + Zeros(Width(job) - CopyLen(job));
    }
  }

  /** Reusing a consistent found tensor changes nothing: the result equals
      the one computed without it. */
  lemma ReuseTransparent(job: Job)
    requires Valid(job) && job.found.Found?
    requires Valid(Source(job)) && job.found.t.data == FullBuffer(Source(job))
    ensures Valid(job.(found := NotFound))
    ensures FullBuffer(job) == FullBuffer(job.(found := NotFound))
  {
    var scratch := job.(found := NotFound);
    forall x | 0 <= x < |Points(job)|
      ensures BlockAt(job, x) == BlockAt(scratch, x)
    {
      GridAt(job.j, LMax(job), x);
      var l := Points(job)[x];
      if Decide(job, l) == Copy {
        SourceBlock(job, l);
        CopyIsKernel(job, l);
      }
      BlockReuse(job, l);
    }
    assert AllBlocks(job) == AllBlocks(scratch);
  }
}
