/** The dense 6-axis booster tensor, its column-major layout, and the flat
    buffer operations the engine performs on it (block copies and the
    element-wise sum of per-rank buffers). */
module Layout {
  import opened Shape

  /** A tensor: six axis extents (i, k, la, lb, lc, ld) and its entries,
      column-major with i fastest. */
  datatype Tensor = Tensor(dims: seq<nat>, data: seq<real>)

  function Product(s: seq<nat>): nat
  {
    if |s| == 0 then 1 else s[0] * Product(s[1..])
  }

  predicate WellFormed(t: Tensor)
  {
    |t.dims| == 6 && |t.data| == Product(t.dims)
  }

  /** Offsets o lie within four extents. */
  predicate InBounds(dims: seq<nat>, o: Quad)
    requires |dims| == 4
  {
    0 <= o.a < dims[0] && 0 <= o.b < dims[1] && 0 <= o.c < dims[2] && 0 <= o.d < dims[3]
  }

  /** Column-major position of four virtual-spin offsets, axis a fastest. */
  function Index4(dims: seq<nat>, o: Quad): int
    requires |dims| == 4
  {
    o.a + dims[0] * (o.b + dims[1] * (o.c + dims[2] * o.d))
  }

  /** TENSOR_INDEX of a 6-axis tensor:
      i + d0*(k + d1*(a + d2*(b + d3*(c + d4*d)))). */
  function Index6(dims: seq<nat>, i: int, k: int, o: Quad): int
    requires |dims| == 6
  {
    i + dims[0] * (k + dims[1] * Index4(dims[2..], o))
  }

  /** Mixed-radix decoding of a position into four offsets, axis a fastest. */
  function Decode(dims: seq<nat>, x: nat): Quad
    requires |dims| == 4 && dims[0] > 0 && dims[1] > 0 && dims[2] > 0
  {
    Quad(x % dims[0], (x / dims[0]) % dims[1], (x / dims[0] / dims[1]) % dims[2],
         x / dims[0] / dims[1] / dims[2])
  }

  lemma MulLe(n: nat, x: int, y: int)
    requires x <= y
    ensures n * x <= n * y
  {
    assert n * y - n * x == n * (y - x);
  }

  lemma MulRotate(a: int, b: int, c: int)
    ensures a * (b * c) == c * (a * b)
  {
  }

  /** Block y of n blocks of width w ends within the n blocks. */
  lemma BlockEnd(w: nat, y: nat, n: nat)
    requires y < n
    ensures 0 <= y * w && y * w + w <= n * w
  {
    MulLe(w, y + 1, n);
  }

  /** Quotient and remainder are unique. */
  lemma DivMod(x: int, n: int, q: int, r: int)
    requires n > 0 && 0 <= r < n && x == n * q + r
    ensures x / n == q && x % n == r
  {
    var q', r' := x / n, x % n;
    assert x == n * q' + r' && 0 <= r' < n;
    if q' < q {
      MulLe(n, q' + 1, q);
      assert false;
    } else if q < q' {
      MulLe(n, q + 1, q');
      assert false;
    }
  }

  /** One step of the mixed radix: a digit below n plus n times a value below m stays below n*m. */
  lemma DigitBound(a: int, n: nat, x: int, m: nat)
    requires 0 <= a < n && 0 <= x < m
    ensures 0 <= a + n * x < n * m
  {
    MulLe(n, 0, x);
    MulLe(n, x + 1, m);
  }

  lemma Product4(dims: seq<nat>)
    requires |dims| == 4
    ensures Product(dims) == dims[0] * (dims[1] * (dims[2] * dims[3]))
  {
    var t1, t2, t3 := dims[1..], dims[2..], dims[3..];
    assert t1[1..] == t2 && t2[1..] == t3 && t3[1..] == [];
    assert Product(t3) == dims[3];
    assert Product(t2) == dims[2] * dims[3];
    assert Product(t1) == dims[1] * (dims[2] * dims[3]);
  }

  lemma Product6(dims: seq<nat>)
    requires |dims| == 6
    ensures Product(dims) == dims[0] * (dims[1] * Product(dims[2..]))
  {
    assert dims[1..][1..] == dims[2..];
  }

  /** A position of in-bounds offsets lies within the four extents' product. */
  lemma {:induction false} Index4Bound(dims: seq<nat>, o: Quad)
    requires |dims| == 4 && InBounds(dims, o)
    ensures 0 <= Index4(dims, o) < Product(dims)
  {
    Product4(dims);
    DigitBound(o.c, dims[2], o.d, dims[3]);
    DigitBound(o.b, dims[1], o.c + dims[2] * o.d, dims[2] * dims[3]);
    DigitBound(o.a, dims[0], o.b + dims[1] * (o.c + dims[2] * o.d), dims[1] * (dims[2] * dims[3]));
  }

  lemma ProductPositive(dims: seq<nat>)
    requires |dims| == 4 && Product(dims) > 0
    ensures dims[0] > 0 && dims[1] > 0 && dims[2] > 0 && dims[3] > 0
  {
    Product4(dims);
  }

  /** Euclidean division: x is its remainder plus n times its quotient. */
  lemma Euclid(x: nat, n: nat)
    requires n > 0
    ensures x == x % n + n * (x / n) && 0 <= x % n < n && x / n >= 0
  {
  }

  /** Decoding a position gives in-bounds offsets whose position it is. */
  lemma {:induction false} EncodeDecode(dims: seq<nat>, x: nat)
    requires |dims| == 4 && x < Product(dims)
    ensures dims[0] > 0 && dims[1] > 0 && dims[2] > 0
    ensures InBounds(dims, Decode(dims, x)) && Index4(dims, Decode(dims, x)) == x
  {
    ProductPositive(dims);
    Product4(dims);
    var n0, n1, n2, n3 := dims[0], dims[1], dims[2], dims[3];
    var o := Decode(dims, x);
    var x1 := x / n0;
    var x2 := x1 / n1;
    var x3 := x2 / n2;
    Euclid(x, n0);
    Euclid(x1, n1);
    Euclid(x2, n2);
    assert x3 < n3 by {
      if x3 >= n3 {
        MulLe(n2, n3, x3);
        MulLe(n1, n2 * n3, x2);
        MulLe(n0, n1 * (n2 * n3), x1);
        assert false;
      }
    }
    calc {
      Index4(dims, o);
      o.a + n0 * (o.b + n1 * (o.c + n2 * x3));
      o.a + n0 * (o.b + n1 * x2);
      o.a + n0 * x1;
      x;
    }
  }

  /** Encoding in-bounds offsets and decoding the position gives them back. */
  lemma {:induction false} DecodeEncode(dims: seq<nat>, o: Quad)
    requires |dims| == 4 && InBounds(dims, o)
    ensures Decode(dims, Index4(dims, o)) == o
  {
    var n0, n1, n2 := dims[0], dims[1], dims[2];
    var x := Index4(dims, o);
    Index4Bound(dims, o);
    var x1 := o.b + n1 * (o.c + n2 * o.d);
    var x2 := o.c + n2 * o.d;
    MulLe(n1, 0, o.c + n2 * o.d);
    MulLe(n2, 0, o.d);
    DivMod(x, n0, x1, o.a);
    DivMod(x1, n1, x2, o.b);
    DivMod(x2, n2, o.d, o.c);
  }

  /** Distinct in-bounds offsets have distinct positions. */
  lemma Index4Injective(dims: seq<nat>, o: Quad, o': Quad)
    requires |dims| == 4 && InBounds(dims, o) && InBounds(dims, o')
    requires Index4(dims, o) == Index4(dims, o')
    ensures o == o'
  {
    DecodeEncode(dims, o);
    DecodeEncode(dims, o');
  }

  /** The (i, k) matrix of a virtual-spin point starts at its block number
      times the block size d0*d1, and lies inside the tensor. */
  lemma {:induction false} BlockStart(dims: seq<nat>, o: Quad)
    requires |dims| == 6 && InBounds(dims[2..], o)
    ensures Index6(dims, 0, 0, o) == (dims[0] * dims[1]) * Index4(dims[2..], o)
    ensures Index6(dims, 0, 0, o) + dims[0] * dims[1] <= Product(dims)
  {
    var x := Index4(dims[2..], o);
    Index4Bound(dims[2..], o);
    Product6(dims);
    MulLe(dims[0] * dims[1], x + 1, Product(dims[2..]));
  }

  /** The first k columns of a block: they start at the block's position
      and stay within the tensor's data. */
  lemma CopyWindow(dims: seq<nat>, o: Quad, k: nat)
    requires |dims| == 6 && InBounds(dims[2..], o) && k <= dims[1]
    ensures 0 <= Index6(dims, 0, 0, o)
    ensures Index6(dims, 0, 0, o) + dims[0] * k <= Product(dims)
    ensures Index6(dims, 0, 0, o) == Index4(dims[2..], o) * (dims[0] * dims[1])
  {
    BlockStart(dims, o);
    Index4Bound(dims[2..], o);
    MulLe(dims[0], k, dims[1]);
    MulLe(dims[0] * dims[1], 0, Index4(dims[2..], o));
  }

  // ----- flat buffers -----

  function Zeros(n: nat): (z: seq<real>)
    ensures |z| == n && forall x :: 0 <= x < n ==> z[x] == 0.0
  {
    seq(n, _ => 0.0)
  }
  /** A prefix of a window holding v then zeros holds v then fewer zeros. */
  lemma WindowPrefix(data: seq<real>, s: nat, m: nat, w: nat, v: seq<real>)
    requires s + w <= |data| && |v| <= m <= w
    requires data[s .. s + w] == v + Zeros(w - |v|)
    ensures data[s .. s + m] == v + Zeros(m - |v|)
  {
    assert data[s .. s + m] == data[s .. s + w][..m];
  }


  /** Blocks laid end to end. */
  function Concat(bs: seq<seq<real>>): seq<real>
  {
    if |bs| == 0 then [] else Concat(bs[..|bs| - 1]) + bs[|bs| - 1]
  }

  predicate Uniform(bs: seq<seq<real>>, w: nat)
  {
    forall n :: 0 <= n < |bs| ==> |bs[n]| == w
  }

  lemma {:induction false} ConcatLength(bs: seq<seq<real>>, w: nat)
    requires Uniform(bs, w)
    ensures |Concat(bs)| == |bs| * w
  {
    if |bs| > 0 {
      ConcatLength(bs[..|bs| - 1], w);
    }
  }

  /** Block n of a concatenation of blocks of width w sits at n*w. */
  lemma {:induction false} ConcatSlice(bs: seq<seq<real>>, w: nat, n: nat)
    requires Uniform(bs, w) && n < |bs|
    ensures |Concat(bs)| == |bs| * w
    ensures Concat(bs)[n * w .. n * w + w] == bs[n]
  {
    ConcatLength(bs, w);
    var m := |bs| - 1;
    ConcatLength(bs[..m], w);
    if n < m {
      ConcatSlice(bs[..m], w, n);
      MulLe(w, n + 1, m);
      assert Concat(bs)[n * w .. n * w + w] == Concat(bs[..m])[n * w .. n * w + w];
    } else {
      assert Concat(bs)[m * w .. m * w + w] == bs[m];
    }
  }

  /** memcpy of vals into buf at position off. */
  function Write(buf: seq<real>, off: nat, vals: seq<real>): (r: seq<real>)
    requires off + |vals| <= |buf|
    ensures |r| == |buf|
    ensures forall x :: 0 <= x < |buf| ==>
      r[x] == if off <= x < off + |vals| then vals[x - off] else buf[x]
  {
    buf[..off] + vals + buf[off + |vals|..]
  }

  /** Writes to disjoint ranges commute. */
  lemma WriteCommute(buf: seq<real>, o1: nat, v1: seq<real>, o2: nat, v2: seq<real>)
    requires o1 + |v1| <= |buf| && o2 + |v2| <= |buf|
    requires o1 + |v1| <= o2 || o2 + |v2| <= o1
    ensures Write(Write(buf, o1, v1), o2, v2) == Write(Write(buf, o2, v2), o1, v1)
  {
  }

  /** Writing a prefix of block n of a concatenation replaces that prefix of the block. */
  lemma {:induction false} WriteBlock(bs: seq<seq<real>>, w: nat, n: nat, v: seq<real>)
    requires Uniform(bs, w) && n < |bs| && |v| <= w
    ensures |Concat(bs)| == |bs| * w && n * w + |v| <= |Concat(bs)|
    ensures Write(Concat(bs), n * w, v) == Concat(bs[n := v + bs[n][|v|..]])
  {
    ConcatLength(bs, w);
    MulLe(w, n + 1, |bs|);
    var m := |bs| - 1;
    var bs' := bs[n := v + bs[n][|v|..]];
    assert bs'[..m] == if n < m then bs[..m][n := v + bs[n][|v|..]] else bs[..m];
    ConcatLength(bs[..m], w);
    if n < m {
      WriteBlock(bs[..m], w, n, v);
      MulLe(w, n + 1, m);
      assert Write(Concat(bs), n * w, v) == Write(Concat(bs[..m]), n * w, v) + bs[m];
    } else {
      assert Write(Concat(bs), n * w, v) == Concat(bs[..m]) + (v + bs[n][|v|..]);
    }
  }

  // ----- the MPI_SUM reduction -----

  function Add(u: seq<real>, v: seq<real>): (r: seq<real>)
    requires |u| == |v|
    ensures |r| == |u| && forall x :: 0 <= x < |u| ==> r[x] == u[x] + v[x]
  {
    seq(|u|, x requires 0 <= x < |u| => u[x] + v[x])
  }

  /** Element-wise sum of equally long buffers, starting from zero. */
  function SumAll(bufs: seq<seq<real>>, len: nat): (r: seq<real>)
    requires Uniform(bufs, len)
    ensures |r| == len
  {
    if |bufs| == 0 then Zeros(len) else Add(SumAll(bufs[..|bufs| - 1], len), bufs[|bufs| - 1])
  }

  /** Adding zeros on either side changes nothing. */
  lemma AddZeros(u: seq<real>)
    ensures Add(u, Zeros(|u|)) == u && Add(Zeros(|u|), u) == u
  {
  }

  /** Blocks of zeros laid end to end are a zero buffer. */
  lemma {:induction false} ConcatZeros(bs: seq<seq<real>>, w: nat)
    requires forall n :: 0 <= n < |bs| ==> bs[n] == Zeros(w)
    ensures Concat(bs) == Zeros(|bs| * w)
  {
    if |bs| > 0 {
      var m := |bs| - 1;
      ConcatZeros(bs[..m], w);
      assert |bs| * w == m * w + w;
    }
  }

  /** Summing concatenations of blocks is concatenating the sums of the blocks. */
  lemma {:induction false} AddConcat(bs: seq<seq<real>>, cs: seq<seq<real>>, w: nat)
    requires Uniform(bs, w) && Uniform(cs, w) && |bs| == |cs|
    ensures |Concat(bs)| == |Concat(cs)|
    ensures Add(Concat(bs), Concat(cs)) == Concat(seq(|bs|, n requires 0 <= n < |bs| => Add(bs[n], cs[n])))
  {
    ConcatLength(bs, w);
    ConcatLength(cs, w);
    var sums := seq(|bs|, n requires 0 <= n < |bs| => Add(bs[n], cs[n]));
    if |bs| > 0 {
      var m := |bs| - 1;
      AddConcat(bs[..m], cs[..m], w);
      ConcatLength(bs[..m], w);
      ConcatLength(cs[..m], w);
      assert sums[..m] == seq(m, n requires 0 <= n < m => Add(bs[..m][n], cs[..m][n]));
      assert Add(Concat(bs), Concat(cs)) == Add(Concat(bs[..m]), Concat(cs[..m])) + Add(bs[m], cs[m]);
    }
  }
}
