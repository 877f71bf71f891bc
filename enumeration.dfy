/** The virtual-spin iteration space of a request, its fixed enumeration
    order, and the round-robin assignment of its points to MPI ranks. */
module Enumeration {
  import opened Shape
  import opened Layout

  /** Number of values lo, lo+2, ... that do not exceed hi. */
  function Steps(lo: int, hi: int): (n: nat)
    ensures n > 0 ==> lo + 2 * (n - 1) <= hi < lo + 2 * n
    ensures n == 0 <==> hi < lo
  {
    if hi < lo then 0 else (hi - lo) / 2 + 1
  }

  /** Extents of the four loops running from j up to lmax in steps of 2. */
  function Counts(j: Quad, lmax: Quad): (n: seq<nat>)
    ensures |n| == 4
  {
    [Steps(j.a, lmax.a), Steps(j.b, lmax.b), Steps(j.c, lmax.c), Steps(j.d, lmax.d)]
  }

  /** The virtual spins o steps of 2 above the boundary spins j. */
  function Shifted(j: Quad, o: Quad): Quad
  {
    Quad(j.a + 2 * o.a, j.b + 2 * o.b, j.c + 2 * o.c, j.d + 2 * o.d)
  }

  /** DIV2(l - j) per axis: the tensor offsets of a virtual-spin point.
      Dafny's / rounds down where DIV2 truncates toward zero; the two agree
      here because every enumerated point has l >= j on each axis. */
  function Offsets(j: Quad, l: Quad): Quad
  {
    Quad((l.a - j.a) / 2, (l.b - j.b) / 2, (l.c - j.c) / 2, (l.d - j.d) / 2)
  }

  /** On a point at or above j on every axis, Offsets is the source's
      DIV2(l - j) taken axis by axis. */
  lemma OffsetsDiv2(j: Quad, l: Quad)
    requires j.a <= l.a && j.b <= l.b && j.c <= l.c && j.d <= l.d
    ensures Offsets(j, l) == Quad(Div2(l.a - j.a), Div2(l.b - j.b), Div2(l.c - j.c), Div2(l.d - j.d))
  {
  }

  /** Every point reached by the four nested loops: each axis from its
      boundary spin up to lmax in steps of 2. */
  predicate InGrid(l: Quad, j: Quad, lmax: Quad)
  {
    && j.a <= l.a <= lmax.a && (l.a - j.a) % 2 == 0
    && j.b <= l.b <= lmax.b && (l.b - j.b) % 2 == 0
    && j.c <= l.c <= lmax.c && (l.c - j.c) % 2 == 0
    && j.d <= l.d <= lmax.d && (l.d - j.d) % 2 == 0
  }

  /** The points in the order the nested loops visit them: ld outermost,
      then lc, then lb, la innermost (mixed radix with axis a fastest). */
  function Grid(j: Quad, lmax: Quad): (g: seq<Quad>)
    ensures |g| == Product(Counts(j, lmax))
  {
    var n := Counts(j, lmax);
    Product4(n);
    if n[0] == 0 || n[1] == 0 || n[2] == 0 then []
    else seq(Product(n), x requires 0 <= x < Product(n) => Shifted(j, Decode(n, x)))
  }

  lemma OffsetsShifted(j: Quad, lmax: Quad, o: Quad)
    requires InBounds(Counts(j, lmax), o)
    ensures InGrid(Shifted(j, o), j, lmax) && Offsets(j, Shifted(j, o)) == o
  {
  }

  lemma ShiftedOffsets(j: Quad, lmax: Quad, l: Quad)
    requires InGrid(l, j, lmax)
    ensures InBounds(Counts(j, lmax), Offsets(j, l)) && Shifted(j, Offsets(j, l)) == l
  {
  }

  /** Point x of the enumeration lies in the grid, and its tensor offsets
      have column-major position x: the enumeration order is the order of
      the blocks in the tensor. */
  lemma {:induction false} GridAt(j: Quad, lmax: Quad, x: nat)
    requires x < |Grid(j, lmax)|
    ensures InGrid(Grid(j, lmax)[x], j, lmax)
    ensures Offsets(j, Grid(j, lmax)[x]) == Decode(Counts(j, lmax), x)
    ensures Index4(Counts(j, lmax), Offsets(j, Grid(j, lmax)[x])) == x
  {
    var n := Counts(j, lmax);
    EncodeDecode(n, x);
    OffsetsShifted(j, lmax, Decode(n, x));
  }

  /** The point with in-bounds offsets o is enumerated at position Index4(o). */
  lemma {:induction false} GridIndex(j: Quad, lmax: Quad, o: Quad)
    requires InBounds(Counts(j, lmax), o)
    ensures 0 <= Index4(Counts(j, lmax), o) < |Grid(j, lmax)|
    ensures Grid(j, lmax)[Index4(Counts(j, lmax), o)] == Shifted(j, o)
  {
    var n := Counts(j, lmax);
    Index4Bound(n, o);
    DecodeEncode(n, o);
  }

  /** The enumeration holds exactly the points of the grid. */
  lemma GridMembers(j: Quad, lmax: Quad, l: Quad)
    ensures l in Grid(j, lmax) <==> InGrid(l, j, lmax)
  {
    if l in Grid(j, lmax) {
      var x :| 0 <= x < |Grid(j, lmax)| && Grid(j, lmax)[x] == l;
      GridAt(j, lmax, x);
    }
    if InGrid(l, j, lmax) {
      ShiftedOffsets(j, lmax, l);
      GridIndex(j, lmax, Offsets(j, l));
    }
  }

  /** Each point is enumerated once. */
  lemma GridDistinct(j: Quad, lmax: Quad, x: nat, y: nat)
    requires x < y < |Grid(j, lmax)|
    ensures Grid(j, lmax)[x] != Grid(j, lmax)[y]
  {
    GridAt(j, lmax, x);
    GridAt(j, lmax, y);
  }

  /** For a request of shell depth Dl the loop extents are fill_ldim's
      extents, and there are (Dl+1)^3 points: the capacity of ls_todo. */
  lemma {:induction false} ShellGrid(gf: int, j: Quad, Dl: nat)
    requires ValidGauge(gf)
    ensures Counts(j, ShellMax(gf, j, 2 * Dl)) == FillLdim(gf, Dl + 1).value
    ensures |Grid(j, ShellMax(gf, j, 2 * Dl))| == (Dl + 1) * (Dl + 1) * (Dl + 1)
  {
    var m := ShellMax(gf, j, 2 * Dl);
    var n := Counts(j, m);
    var f := FillLdim(gf, Dl + 1).value;
    assert m.At(0) == m.a && m.At(1) == m.b && m.At(2) == m.c && m.At(3) == m.d;
    assert j.At(0) == j.a && j.At(1) == j.b && j.At(2) == j.c && j.At(3) == j.d;
    forall x | 0 <= x < 4
      ensures n[x] == f[x]
    {
    }
    Product4(n);
  }

  // ----- round-robin partition -----

  /** The points kept by rank r of size ranks: those whose sequential
      index is congruent to r modulo size, in enumeration order. */
  function Owned(pts: seq<Quad>, r: nat, size: nat): (o: seq<Quad>)
    requires size > 0
    ensures |o| <= |pts|
  {
    if |pts| == 0 then []
    else Owned(pts[..|pts| - 1], r, size) +
         (if (|pts| - 1) % size == r then [pts[|pts| - 1]] else [])
  }

  lemma OwnedSnoc(pts: seq<Quad>, x: nat, r: nat, size: nat)
    requires size > 0 && x < |pts|
    ensures Owned(pts[..x + 1], r, size) ==
            Owned(pts[..x], r, size) + (if x % size == r then [pts[x]] else [])
  {
    assert pts[..x + 1][..x] == pts[..x];
  }

  /** A rank keeps only points of the enumeration. */
  lemma {:induction false} OwnedIn(pts: seq<Quad>, r: nat, size: nat, l: Quad)
    requires size > 0 && l in Owned(pts, r, size)
    ensures l in pts
  {
    var m := |pts| - 1;
    if l != pts[m] {
      OwnedIn(pts[..m], r, size, l);
      assert pts[..m] <= pts;
    }
  }

  /** The enumeration index of the lind-th point owned by rank. */
  function Slot(rank: nat, size: nat, lind: nat): nat
  {
    rank + lind * size
  }

  /** Number of indices below n congruent to r: the ceiling of (n-r)/size. */
  function Share(n: nat, r: nat, size: nat): nat
    requires size > 0
  {
    if n <= r then 0 else (n - r - 1) / size + 1
  }

  lemma {:induction false} ShareStep(n: nat, r: nat, size: nat)
    requires 0 < size && r < size
    ensures Share(n + 1, r, size) == Share(n, r, size) + (if n % size == r then 1 else 0)
    ensures n % size == r ==> n == Slot(r, size, Share(n, r, size))
  {
    if n < r {
      DivMod(n, size, 0, n);
    } else {
      var q := (n - r) / size;
      var m := (n - r) % size;
      Euclid(n - r, size);
      assert n == r + m + size * q;
      if m == 0 {
        DivMod(n, size, q, r);
        if q > 0 {
          DivMod(n - r - 1, size, q - 1, size - 1);
        }
        assert Share(n, r, size) == q;
      } else {
        DivMod(n - r - 1, size, q, m - 1);
        if r + m < size {
          DivMod(n, size, q, r + m);
        } else {
          DivMod(n, size, q + 1, r + m - size);
        }
      }
      assert n + 1 - r - 1 == n - r;
    }
  }

  /** Rank r keeps points r, r+size, r+2*size, ...: a ceiling-or-floor share
      of the points, in enumeration order. */
  lemma {:induction false} OwnedStride(pts: seq<Quad>, r: nat, size: nat)
    requires 0 < size && r < size
    ensures |Owned(pts, r, size)| == Share(|pts|, r, size)
    ensures forall i :: 0 <= i < |Owned(pts, r, size)| ==>
      Slot(r, size, i) < |pts| && Owned(pts, r, size)[i] == pts[Slot(r, size, i)]
  {
    if |pts| > 0 {
      var n := |pts| - 1;
      OwnedStride(pts[..n], r, size);
      ShareStep(n, r, size);
      assert pts == pts[..n + 1];
      OwnedSnoc(pts, n, r, size);
    }
  }

  /** The ranks' shares cover the points: point x is kept by rank
      x mod size, at position x div size. */
  lemma {:induction false} PartitionCover(pts: seq<Quad>, size: nat, x: nat)
    requires 0 < size && x < |pts|
    ensures x / size < |Owned(pts, x % size, size)|
    ensures Owned(pts, x % size, size)[x / size] == pts[x]
  {
    var r := x % size;
    var q := Share(x, r, size);
    Euclid(x, size);
    ShareStep(x, r, size);
    DivMod(x, size, q, r);
    OwnedStride(pts[..x], r, size);
    OwnedSnoc(pts, x, r, size);
    var own := Owned(pts[..x + 1], r, size);
    assert |own| == q + 1 && own[q] == pts[x];
    OwnedPrefix(pts, x + 1, r, size);
  }

  /** The shares are disjoint: position i of rank r and position i' of rank
      r' hold the same index only when r == r' and i == i'. */
  lemma PartitionDisjoint(size: nat, r: nat, i: nat, r': nat, i': nat)
    requires 0 < size && r < size && r' < size
    requires r + i * size == r' + i' * size
    ensures r == r' && i == i'
  {
    DivMod(r + i * size, size, i, r);
    DivMod(r' + i' * size, size, i', r');
  }

  /** No enumerated point is kept by two ranks. */
  lemma OwnedDisjoint(j: Quad, lmax: Quad, size: nat, r: nat, r': nat, l: Quad)
    requires 0 < size && r < size && r' < size && r != r'
    requires l in Owned(Grid(j, lmax), r, size)
    ensures l !in Owned(Grid(j, lmax), r', size)
  {
    var g := Grid(j, lmax);
    OwnedStride(g, r, size);
    OwnedStride(g, r', size);
    if l in Owned(g, r', size) {
      var i :| 0 <= i < |Owned(g, r, size)| && Owned(g, r, size)[i] == l;
      var i' :| 0 <= i' < |Owned(g, r', size)| && Owned(g, r', size)[i'] == l;
      var x, y := Slot(r, size, i), Slot(r', size, i');
      DivMod(x, size, i, r);
      DivMod(y, size, i', r');
      if x < y {
        GridDistinct(j, lmax, x, y);
      } else {
        GridDistinct(j, lmax, y, x);
      }
    }
  }

  /** Owning a prefix keeps a prefix of the owned points. */
  lemma {:induction false} OwnedPrefix(pts: seq<Quad>, m: nat, r: nat, size: nat)
    requires 0 < size && m <= |pts|
    ensures |Owned(pts[..m], r, size)| <= |Owned(pts, r, size)|
    ensures Owned(pts[..m], r, size) == Owned(pts, r, size)[..|Owned(pts[..m], r, size)|]
    decreases |pts| - m
  {
    if m < |pts| {
      OwnedPrefix(pts, m + 1, r, size);
      OwnedSnoc(pts, m, r, size);
    } else {
      assert pts[..m] == pts;
    }
  }

  /** With a single rank every point is kept, in order. */
  lemma {:induction false} OwnedSingle(pts: seq<Quad>)
    ensures Owned(pts, 0, 1) == pts
  {
    if |pts| > 0 {
      OwnedSingle(pts[..|pts| - 1]);
    }
  }

  /** go_parallel: the fill runs in parallel only when this rank owns at least 4 points. */
  function GoParallel(todoSize: nat): bool
  {
    todoSize >= 4
  }

  /** A rank goes parallel exactly when its round-robin share has 4 points or more. */
  lemma ParallelThreshold(pts: seq<Quad>, r: nat, size: nat)
    requires 0 < size && r < size
    ensures GoParallel(|Owned(pts, r, size)|) <==> Share(|pts|, r, size) >= 4
  {
    OwnedStride(pts, r, size);
  }

  /** One step of the la loop advances the counter by one. */
  lemma Tick(n: seq<nat>, ia: int, ib: int, ic: int, id: int)
    requires |n| == 4
    ensures Index4(n, Quad(ia + 1, ib, ic, id)) == Index4(n, Quad(ia, ib, ic, id)) + 1
  {
  }

  /** Finishing the la loop moves on to the next lb, and so on outward. */
  lemma Carry(n: seq<nat>, ib: int, ic: int, id: int)
    requires |n| == 4
    ensures Index4(n, Quad(n[0], ib, ic, id)) == Index4(n, Quad(0, ib + 1, ic, id))
    ensures Index4(n, Quad(0, n[1], ic, id)) == Index4(n, Quad(0, 0, ic + 1, id))
    ensures Index4(n, Quad(0, 0, n[2], id)) == Index4(n, Quad(0, 0, 0, id + 1))
    ensures Index4(n, Quad(0, 0, 0, n[3])) == Product(n)
  {
    Product4(n);
  }

  /** The innermost loop of the enumeration, over la for fixed lb, lc, ld:
      each point gets the next counter value and is written into ls_todo
      when this rank owns it. */
  method ScanRow(j: Quad, lmax: Quad, rank: nat, size: nat, lsTodo: array<Quad>,
                 lsTodoSize0: nat, lcount0: int, lb: int, lc: int, ld: int,
                 ghost ib: nat, ghost ic: nat, ghost id: nat)
    returns (lsTodoSize: nat, lcount: int)
    requires 0 < size && rank < size
    requires |Grid(j, lmax)| <= lsTodo.Length
    requires lb == j.b + 2 * ib && lc == j.c + 2 * ic && ld == j.d + 2 * id
    requires ib < Counts(j, lmax)[1] && ic < Counts(j, lmax)[2] && id < Counts(j, lmax)[3]
    requires lcount0 + 1 == Index4(Counts(j, lmax), Quad(0, ib, ic, id)) && lcount0 + 1 <= |Grid(j, lmax)|
    requires lsTodoSize0 <= lcount0 + 1
    requires lsTodo[..lsTodoSize0] == Owned(Grid(j, lmax)[..lcount0 + 1], rank, size)
    modifies lsTodo
    ensures lcount + 1 == Index4(Counts(j, lmax), Quad(0, ib + 1, ic, id)) && lcount + 1 <= |Grid(j, lmax)|
    ensures lsTodoSize <= lcount + 1
    ensures lsTodo[..lsTodoSize] == Owned(Grid(j, lmax)[..lcount + 1], rank, size)
  {
    ghost var n := Counts(j, lmax);
    ghost var grid := Grid(j, lmax);
    lsTodoSize, lcount := lsTodoSize0, lcount0;
    var la := j.a;
    ghost var ia := 0;
    while la <= lmax.a
      invariant la == j.a + 2 * ia && 0 <= ia <= n[0]
      invariant lcount + 1 == Index4(n, Quad(ia, ib, ic, id)) && lcount + 1 <= |grid|
      invariant lsTodoSize <= lcount + 1
      invariant lsTodo[..lsTodoSize] == Owned(grid[..lcount + 1], rank, size)
    {
      Tick(n, ia, ib, ic, id);
      lcount := lcount + 1;
      GridIndex(j, lmax, Quad(ia, ib, ic, id));
      assert grid[lcount] == Quad(la, lb, lc, ld);
      OwnedSnoc(grid, lcount, rank, size);
      if lcount % size == rank {
        ghost var before := lsTodo[..lsTodoSize];
        lsTodo[lsTodoSize] := Quad(la, lb, lc, ld);
        assert lsTodo[..lsTodoSize + 1] == before + [Quad(la, lb, lc, ld)];
        lsTodoSize := lsTodoSize + 1;
      }
      la := la + 2;
      ia := ia + 1;
    }
    Carry(n, ib, ic, id);
  }

  /** The quadruple enumeration of the source: four nested loops with ld
      outermost, a running counter lcount, and the points whose counter is
      congruent to rank modulo size written into ls_todo, an array of the
      given capacity. Returns the filled part ls_todo[..ls_todo_size]. */
  method EnumerateOwned(j: Quad, lmax: Quad, capacity: nat, rank: nat, size: nat)
    returns (todo: seq<Quad>)
    requires 0 < size && rank < size
    requires |Grid(j, lmax)| <= capacity
    ensures todo == Owned(Grid(j, lmax), rank, size)
  {
    ghost var n := Counts(j, lmax);
    ghost var grid := Grid(j, lmax);
    var lsTodo := new Quad[capacity];
    var lsTodoSize: nat := 0;
    var lcount := -1;
    var ld := j.d;
    ghost var id := 0;
    while ld <= lmax.d
      invariant ld == j.d + 2 * id && 0 <= id <= n[3]
      invariant lcount + 1 == Index4(n, Quad(0, 0, 0, id)) && lcount + 1 <= |grid|
      invariant lsTodoSize <= lcount + 1
      invariant lsTodo[..lsTodoSize] == Owned(grid[..lcount + 1], rank, size)
    {
      var lc := j.c;
      ghost var ic := 0;
      while lc <= lmax.c
        invariant lc == j.c + 2 * ic && 0 <= ic <= n[2] && id < n[3]
        invariant lcount + 1 == Index4(n, Quad(0, 0, ic, id)) && lcount + 1 <= |grid|
        invariant lsTodoSize <= lcount + 1
        invariant lsTodo[..lsTodoSize] == Owned(grid[..lcount + 1], rank, size)
      {
        var lb := j.b;
        ghost var ib := 0;
        while lb <= lmax.b
          invariant lb == j.b + 2 * ib && 0 <= ib <= n[1] && ic < n[2]
          invariant lcount + 1 == Index4(n, Quad(0, ib, ic, id)) && lcount + 1 <= |grid|
          invariant lsTodoSize <= lcount + 1
          invariant lsTodo[..lsTodoSize] == Owned(grid[..lcount + 1], rank, size)
        {
          lsTodoSize, lcount := ScanRow(j, lmax, rank, size, lsTodo, lsTodoSize, lcount,
                                       lb, lc, ld, ib, ic, id);
          lb := lb + 2;
          ib := ib + 1;
        }
        Carry(n, 0, ic, id);
        lc := lc + 2;
        ic := ic + 1;
      }
      Carry(n, 0, 0, id);
      ld := ld + 2;
      id := id + 1;
    }
    Carry(n, 0, 0, id);
    assert grid[..lcount + 1] == grid;
    todo := lsTodo[..lsTodoSize];
  }
}
