/** Doubled spins, intertwiner ranges and the per-axis shape of a booster request. */
module Shape {

  /** Largest shell depth a request may ask for (DL_MAX). */
  const DL_MAX: int := 50

  /** The fatal conditions of the engine; each one aborts the request. */
  datatype Error =
    | TooManyShells    // Dl above DL_MAX
    | BadGauge         // gauge-fixed index outside 1..4
    | ExtentOverflow   // negative intertwiner extent handed to the allocator

  datatype Result<T> = Ok(value: T) | Err(error: Error)

  /** Four doubled spins, one per booster axis a, b, c, d. */
  datatype Quad = Quad(a: int, b: int, c: int, d: int) {
    /** The spin on axis x (0 for a, ..., 3 for d). */
    function At(x: nat): int
      requires x < 4
    {
      if x == 0 then a else if x == 1 then b else if x == 2 then c else d
    }
  }

  function Abs(x: int): int { if x < 0 then -x else x }
  function Max(x: int, y: int): int { if x < y then y else x }
  function Min(x: int, y: int): int { if x < y then x else y }

  /** DIV2: C division by two, which truncates toward zero. */
  function Div2(x: int): (r: int)
    ensures x - 2 * r == 0 || x - 2 * r == (if x < 0 then -1 else 1)
  {
    if x >= 0 then x / 2 else -((-x) / 2)
  }

  /** The gauges fill_ldim accepts: the fixed axis is one of the four. */
  predicate ValidGauge(gf: int) { 1 <= gf <= 4 }

  /** Lower end of the coupling range of a quadruple, max(|a-b|, |c-d|):
      the least doubled spin that both pairs (a, b) and (c, d) can couple to. */
  function TwoMin(q: Quad): (r: int)
    ensures r >= Abs(q.a - q.b) && r >= Abs(q.c - q.d)
    ensures r == Abs(q.a - q.b) || r == Abs(q.c - q.d)
  {
    Max(Abs(q.a - q.b), Abs(q.c - q.d))
  }

  /** Upper end of the coupling range, min(a+b, c+d). */
  function TwoMax(q: Quad): (r: int)
    ensures r <= q.a + q.b && r <= q.c + q.d
    ensures r == q.a + q.b || r == q.c + q.d
  {
    Min(q.a + q.b, q.c + q.d)
  }

  /** Number of entries of the coupling range in steps of 2: idim for the
      boundary spins, kdim for a virtual-spin quadruple. */
  function Extent(q: Quad): int
  {
    Div2(TwoMax(q) - TwoMin(q)) + 1
  }

  /** A doubled spin x lies in the coupling range exactly when it satisfies
      the triangle conditions of both pairs. */
  lemma CouplingRange(q: Quad, x: int)
    ensures TwoMin(q) <= x <= TwoMax(q) <==>
            Abs(q.a - q.b) <= x <= q.a + q.b && Abs(q.c - q.d) <= x <= q.c + q.d
  {
  }

  /** When the range is not empty, Extent counts TwoMin, TwoMin+2, ..., up
      to TwoMax: the last of them is within the range, the next is past it. */
  lemma ExtentCounts(q: Quad)
    requires TwoMin(q) <= TwoMax(q)
    ensures Extent(q) >= 1
    ensures TwoMin(q) + 2 * (Extent(q) - 1) <= TwoMax(q) < TwoMin(q) + 2 * Extent(q)
  {
  }

  /** An empty range that misses by at most one step gives extent 0; a
      wider gap gives a negative extent. */
  lemma ExtentEmpty(q: Quad)
    requires TwoMax(q) < TwoMin(q)
    ensures Extent(q) <= 0 <==> TwoMax(q) <= TwoMin(q) - 2
    ensures Extent(q) < 0 <==> TwoMax(q) <= TwoMin(q) - 4
  {
  }

  /** fill_ldim: the extents of the four virtual-spin axes; the gauge-fixed
      axis gf-1 has extent 1, the other three ldim. */
  function FillLdim(gf: int, ldim: nat): (r: Result<seq<nat>>)
    ensures r.Ok? <==> ValidGauge(gf)
    ensures r.Ok? ==> |r.value| == 4
    ensures r.Ok? ==> forall x :: 0 <= x < 4 ==> r.value[x] == if x == gf - 1 then 1 else ldim
  {
    if gf == 1 then Ok([1, ldim, ldim, ldim])
    else if gf == 2 then Ok([ldim, 1, ldim, ldim])
    else if gf == 3 then Ok([ldim, ldim, 1, ldim])
    else if gf == 4 then Ok([ldim, ldim, ldim, 1])
    else Err(BadGauge)
  }

  /** The l_max switch: the largest virtual spin per axis for a shell of
      doubled depth twoDl. The gauge-fixed axis stays at its boundary spin. */
  function ShellMax(gf: int, j: Quad, twoDl: int): (m: Quad)
    requires ValidGauge(gf)
    ensures forall x :: 0 <= x < 4 ==> m.At(x) == j.At(x) + if x == gf - 1 then 0 else twoDl
  {
    if gf == 1 then Quad(j.a, j.b + twoDl, j.c + twoDl, j.d + twoDl)
    else if gf == 2 then Quad(j.a + twoDl, j.b, j.c + twoDl, j.d + twoDl)
    else if gf == 3 then Quad(j.a + twoDl, j.b + twoDl, j.c, j.d + twoDl)
    else Quad(j.a + twoDl, j.b + twoDl, j.c + twoDl, j.d)
  }

  /** A deeper shell never lowers a maximum and strictly raises the three
      maxima that are not gauge-fixed. */
  lemma ShellMaxMonotone(gf: int, j: Quad, twoDl: int, twoDl': int)
    requires ValidGauge(gf) && twoDl < twoDl'
    ensures forall x :: 0 <= x < 4 ==>
      (x == gf - 1 ==> ShellMax(gf, j, twoDl).At(x) == ShellMax(gf, j, twoDl').At(x)) &&
      (x != gf - 1 ==> ShellMax(gf, j, twoDl).At(x) < ShellMax(gf, j, twoDl').At(x))
  {
  }
}
