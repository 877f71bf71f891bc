/** sl2cfoam_boosters_tensors_vertex: the four booster tensors of a vertex
    amplitude. The vertex has nodes 1..5 and ten links; node 1 is gauge
    fixed, and node n = 2..5 gets a booster over its four links. */
module Vertex {
  import opened Shape
  import opened Boosters

  /** Position of the spin of link a-b in the ten spins j12, j13, j14, j15,
      j23, j24, j25, j34, j35, j45. */
  function Link(a: int, b: int): (k: int)
    requires 1 <= a <= 5 && 1 <= b <= 5 && a != b
    ensures 0 <= k < 10
  {
    var lo := Min(a, b);
    var hi := Max(a, b);
    var offset := if lo == 1 then 0 else if lo == 2 then 4 else if lo == 3 then 7 else 9;
    offset + hi - lo - 1
  }

  /** The i-th neighbour of node n, going round 1..5 cyclically after n. */
  function Partner(n: int, i: nat): int
    requires 2 <= n <= 5 && i < 4
  {
    (n + i) % 5 + 1
  }

  /** The gauge and the spins of one booster request. */
  datatype Booster = Booster(gf: int, j: Quad)

  /** MAP_SPINS_2 .. MAP_SPINS_5. */
  function MapSpins(js: seq<int>, n: int): Booster
    requires |js| == 10 && 2 <= n <= 5
  {
    if n == 2 then Booster(4, Quad(js[4], js[5], js[6], js[0]))
    else if n == 3 then Booster(3, Quad(js[7], js[8], js[1], js[4]))
    else if n == 4 then Booster(2, Quad(js[9], js[2], js[5], js[7]))
    else Booster(1, Quad(js[3], js[6], js[8], js[9]))
  }

  /** The neighbours of node n are the four other nodes, each once. */
  lemma PartnersAround(n: int)
    requires 2 <= n <= 5
    ensures forall i :: 0 <= i < 4 ==> 1 <= Partner(n, i) <= 5 && Partner(n, i) != n
    ensures forall i, i' :: 0 <= i < i' < 4 ==> Partner(n, i) != Partner(n, i')
  {
  }

  /** Booster n is over the four links at node n, in cyclic order after n;
      its gauge is 6-n, and the link to the gauge-fixed node 1 sits on
      axis gf-1, the one fill_ldim leaves at a single entry. */
  lemma MapSpinsLinks(js: seq<int>, n: int)
    requires |js| == 10 && 2 <= n <= 5
    ensures MapSpins(js, n).gf == 6 - n && ValidGauge(MapSpins(js, n).gf)
    ensures forall i :: 0 <= i < 4 ==> MapSpins(js, n).j.At(i) == js[Link(n, Partner(n, i))]
    ensures Partner(n, MapSpins(js, n).gf - 1) == 1
  {
    PartnersAround(n);
    forall i | 0 <= i < 4
      ensures MapSpins(js, n).j.At(i) == js[Link(n, Partner(n, i))]
    {
      if n == 2 {
        assert Partner(2, 0) == 3 && Partner(2, 1) == 4 && Partner(2, 2) == 5 && Partner(2, 3) == 1;
      } else if n == 3 {
        assert Partner(3, 0) == 4 && Partner(3, 1) == 5 && Partner(3, 2) == 1 && Partner(3, 3) == 2;
      } else if n == 4 {
        assert Partner(4, 0) == 5 && Partner(4, 1) == 1 && Partner(4, 2) == 2 && Partner(4, 3) == 3;
      } else {
        assert Partner(5, 0) == 1 && Partner(5, 1) == 2 && Partner(5, 2) == 3 && Partner(5, 3) == 4;
      }
    }
  }

  /** The kernel fits every one of the four requests. */
  ghost predicate VertexFits(env: Env, js: seq<int>, Dl: nat)
    requires |js| == 10
  {
    forall n :: 2 <= n <= 5 ==> Fits(env, MapSpins(js, n).gf, MapSpins(js, n).j, Dl)
  }

  /** Request n of the vertex on a given disk. */
  function BoostAt(env: Env, disk: Disk, js: seq<int>, Dl: nat, store: bool, n: int): Outcome
    requires |js| == 10 && 2 <= n <= 5 && DiskShaped(env, disk) && VertexFits(env, js, Dl)
  {
    Boost(env, disk, MapSpins(js, n).gf, MapSpins(js, n).j, Dl, store)
  }

  /** Requests 2..n-1 one after the other, each on the disk the previous
      one left; the first fatal error ends the run. */
  function RunUpTo(env: Env, disk: Disk, js: seq<int>, Dl: nat, store: bool, n: int): (p: (Result<seq<Reply>>, Disk))
    requires |js| == 10 && 2 <= n <= 6 && DiskShaped(env, disk) && VertexFits(env, js, Dl)
    ensures DiskShaped(env, p.1)
    ensures p.0.Ok? ==> |p.0.value| == n - 2
    decreases n
  {
    if n == 2 then (Ok([]), disk)
    else
      var prev := RunUpTo(env, disk, js, Dl, store, n - 1);
      if prev.0.Err? then prev
      else
        var b := MapSpins(js, n - 1);
        BoostShaped(env, prev.1, b.gf, b.j, Dl, store);
        var o := BoostAt(env, prev.1, js, Dl, store, n - 1);
        if o.reply.Err? then (Err(o.reply.error), o.disk)
        else (Ok(prev.0.value + [o.reply.value]), o.disk)
  }

  /** The four replies, each request made alone on the same disk. */
  function Replies(env: Env, disk: Disk, js: seq<int>, Dl: nat, store: bool): (rs: seq<Result<Reply>>)
    requires |js| == 10 && DiskShaped(env, disk) && VertexFits(env, js, Dl)
    ensures |rs| == 4
  {
    [BoostAt(env, disk, js, Dl, store, 2).reply, BoostAt(env, disk, js, Dl, store, 3).reply,
     BoostAt(env, disk, js, Dl, store, 4).reply, BoostAt(env, disk, js, Dl, store, 5).reply]
  }

  lemma RepliesAt(env: Env, disk: Disk, js: seq<int>, Dl: nat, store: bool, n: int)
    requires |js| == 10 && 2 <= n <= 5 && DiskShaped(env, disk) && VertexFits(env, js, Dl)
    ensures Replies(env, disk, js, Dl, store)[n - 2] == BoostAt(env, disk, js, Dl, store, n).reply
  {
  }

  /** Replies in order until the first error. */
  function Collect(rs: seq<Result<Reply>>): Result<seq<Reply>>
  {
    if |rs| == 0 then Ok([])
    else
      var prev := Collect(rs[..|rs| - 1]);
      if prev.Err? then prev
      else if rs[|rs| - 1].Err? then Err(rs[|rs| - 1].error)
      else Ok(prev.value + [rs[|rs| - 1].value])
  }

  /** Collect succeeds exactly when every reply does, and then lists them;
      otherwise it gives the error of the first reply that failed. */
  lemma {:induction false} CollectReplies(rs: seq<Result<Reply>>)
    ensures Collect(rs).Ok? <==> forall i :: 0 <= i < |rs| ==> rs[i].Ok?
    ensures Collect(rs).Ok? ==> (|Collect(rs).value| == |rs| &&
      forall i :: 0 <= i < |rs| ==> Collect(rs).value[i] == rs[i].value)
    ensures Collect(rs).Err? ==> exists i :: (0 <= i < |rs| && rs[i] == Err(Collect(rs).error) &&
      forall i' :: 0 <= i' < i ==> rs[i'].Ok?)
  {
    if |rs| > 0 {
      var front := rs[..|rs| - 1];
      CollectReplies(front);
      assert forall i :: 0 <= i < |front| ==> front[i] == rs[i];
    }
  }

  lemma SameGaugeTrans(d0: Disk, d1: Disk, d2: Disk, g: int)
    requires SameGauge(d0, d1, g) && SameGauge(d1, d2, g)
    ensures SameGauge(d0, d2, g)
  {
  }

  /** What the run has reached after requests 2..n-1: the replies of the
      requests made alone, and a disk that still agrees with the original
      under the gauges of the requests to come. */
  ghost predicate Reached(env: Env, disk: Disk, js: seq<int>, Dl: nat, store: bool, n: int)
    requires |js| == 10 && 2 <= n <= 6 && DiskShaped(env, disk) && VertexFits(env, js, Dl)
  {
    RunUpTo(env, disk, js, Dl, store, n).0 == Collect(Replies(env, disk, js, Dl, store)[..n - 2]) &&
    Unseen(env, disk, js, Dl, store, n)
  }

  ghost predicate Unseen(env: Env, disk: Disk, js: seq<int>, Dl: nat, store: bool, n: int)
    requires |js| == 10 && 2 <= n <= 6 && DiskShaped(env, disk) && VertexFits(env, js, Dl)
  {
    forall g :: g <= 6 - n ==> SameGauge(disk, RunUpTo(env, disk, js, Dl, store, n).1, g)
  }

  /** A request of gauge gf leaves the view of every lower gauge as it was. */
  lemma LowerGaugesKept(env: Env, disk: Disk, d: Disk, gf: int, j: Quad, Dl: nat, store: bool, top: int)
    requires DiskShaped(env, d) && Fits(env, gf, j, Dl) && top < gf
    requires forall g :: g <= top ==> SameGauge(disk, d, g)
    ensures forall g :: g <= top ==> SameGauge(disk, Boost(env, d, gf, j, Dl, store).disk, g)
  {
    forall g | g <= top
      ensures SameGauge(disk, Boost(env, d, gf, j, Dl, store).disk, g)
    {
      GaugeKept(env, d, gf, j, Dl, store, g);
      SameGaugeTrans(disk, d, Boost(env, d, gf, j, Dl, store).disk, g);
    }
  }

  lemma UnseenStep(env: Env, disk: Disk, js: seq<int>, Dl: nat, store: bool, n: int)
    requires |js| == 10 && 2 < n <= 6 && DiskShaped(env, disk) && VertexFits(env, js, Dl)
    requires Unseen(env, disk, js, Dl, store, n - 1)
    ensures Unseen(env, disk, js, Dl, store, n)
  {
    var prev := RunUpTo(env, disk, js, Dl, store, n - 1);
    if prev.0.Ok? {
      var b := MapSpins(js, n - 1);
      MapSpinsLinks(js, n - 1);
      LowerGaugesKept(env, disk, prev.1, b.gf, b.j, Dl, store, 6 - n);
    }
  }

  lemma CollectSnoc(rs: seq<Result<Reply>>, k: nat)
    requires k < |rs|
    ensures Collect(rs[..k + 1]) ==
      if Collect(rs[..k]).Err? then Collect(rs[..k])
      else if rs[k].Err? then Err(rs[k].error)
      else Ok(Collect(rs[..k]).value + [rs[k].value])
  {
    assert rs[..k + 1][..k] == rs[..k];
  }

  lemma RunStep(env: Env, disk: Disk, js: seq<int>, Dl: nat, store: bool, n: int)
    requires |js| == 10 && 2 < n <= 6 && DiskShaped(env, disk) && VertexFits(env, js, Dl)
    requires Reached(env, disk, js, Dl, store, n - 1)
    ensures Reached(env, disk, js, Dl, store, n)
  {
    UnseenStep(env, disk, js, Dl, store, n);
    var rs := Replies(env, disk, js, Dl, store);
    CollectSnoc(rs, n - 3);
    var prev := RunUpTo(env, disk, js, Dl, store, n - 1);
    if prev.0.Ok? {
      var b := MapSpins(js, n - 1);
      MapSpinsLinks(js, n - 1);
      GaugeView(env, disk, prev.1, b.gf, b.j, Dl, store);
      RepliesAt(env, disk, js, Dl, store, n - 1);
    }
  }

  /** The requests of a vertex have different gauges, so the tensor one of
      them stores is never seen by the others: running them in sequence
      answers what running each on the original disk answers. */
  lemma RunIsSeparate(env: Env, disk: Disk, js: seq<int>, Dl: nat, store: bool)
    requires |js| == 10 && DiskShaped(env, disk) && VertexFits(env, js, Dl)
    ensures RunUpTo(env, disk, js, Dl, store, 6).0 == Collect(Replies(env, disk, js, Dl, store))
  {
    var rs := Replies(env, disk, js, Dl, store);
    var m := 2;
    while m < 6
      invariant 2 <= m <= 6 && Reached(env, disk, js, Dl, store, m)
    {
      RunStep(env, disk, js, Dl, store, m + 1);
      m := m + 1;
    }
    assert rs[..4] == rs;
  }

  lemma RunErrStep(env: Env, disk: Disk, js: seq<int>, Dl: nat, store: bool, n: int)
    requires |js| == 10 && 2 <= n < 6 && DiskShaped(env, disk) && VertexFits(env, js, Dl)
    requires RunUpTo(env, disk, js, Dl, store, n).0.Err?
    ensures RunUpTo(env, disk, js, Dl, store, n + 1) == RunUpTo(env, disk, js, Dl, store, n)
  {
  }

  /** Once a request fails the remaining ones are not made. */
  lemma RunStops(env: Env, disk: Disk, js: seq<int>, Dl: nat, store: bool, n: int)
    requires |js| == 10 && 2 <= n <= 6 && DiskShaped(env, disk) && VertexFits(env, js, Dl)
    requires RunUpTo(env, disk, js, Dl, store, n).0.Err? || n == 6
    ensures RunUpTo(env, disk, js, Dl, store, 6) == RunUpTo(env, disk, js, Dl, store, n)
  {
    if n < 6 {
      var p := RunUpTo(env, disk, js, Dl, store, n);
      var m := n;
      while m < 6
        invariant n <= m <= 6 && RunUpTo(env, disk, js, Dl, store, m) == p
      {
        RunErrStep(env, disk, js, Dl, store, m);
        m := m + 1;
      }
    }
  }

  /** The four replies of a vertex are the four requests each made alone on
      the original disk; the run fails exactly when one of them does, with
      the error of the first. */
  lemma VertexReplies(env: Env, disk: Disk, js: seq<int>, Dl: nat, store: bool)
    requires |js| == 10 && DiskShaped(env, disk) && VertexFits(env, js, Dl)
    ensures var p := RunUpTo(env, disk, js, Dl, store, 6);
      var rs := Replies(env, disk, js, Dl, store);
      (p.0.Ok? <==> forall i :: 0 <= i < 4 ==> rs[i].Ok?) &&
      (p.0.Ok? ==> (|p.0.value| == 4 && forall i :: 0 <= i < 4 ==> p.0.value[i] == rs[i].value)) &&
      (p.0.Err? ==> exists i :: (0 <= i < 4 && rs[i] == Err(p.0.error) && forall i' :: 0 <= i' < i ==> rs[i'].Ok?))
  {
    RunIsSeparate(env, disk, js, Dl, store);
    CollectReplies(Replies(env, disk, js, Dl, store));
  }

  /** On a disk of consistent tensors the vertex answers as on an empty disk. */
  lemma RepliesTransparent(env: Env, disk: Disk, js: seq<int>, Dl: nat, store: bool)
    requires |js| == 10 && Consistent(env, disk) && VertexFits(env, js, Dl)
    ensures Replies(env, disk, js, Dl, store) == Replies(env, map[], js, Dl, store)
  {
    var b2, b3, b4, b5 := MapSpins(js, 2), MapSpins(js, 3), MapSpins(js, 4), MapSpins(js, 5);
    CacheTransparent(env, disk, b2.gf, b2.j, Dl, store);
    CacheTransparent(env, disk, b3.gf, b3.j, Dl, store);
    CacheTransparent(env, disk, b4.gf, b4.j, Dl, store);
    CacheTransparent(env, disk, b5.gf, b5.j, Dl, store);
  }

  /** One booster of the vertex: MAP_SPINS_n, the request, and b_two_i_mins. */
  method BoosterAt(env: Env, disk: Disk, js: seq<int>, Dl: nat, store: bool, mpiSize: nat, n: int)
    returns (r: Result<Reply>, disk': Disk, twoIMin: int)
    requires |js| == 10 && 2 <= n <= 5 && 0 < mpiSize && DiskShaped(env, disk) && VertexFits(env, js, Dl)
    ensures Outcome(r, disk') == BoostAt(env, disk, js, Dl, store, n)
    ensures twoIMin == TwoMin(MapSpins(js, n).j)
    ensures DiskShaped(env, disk')
  {
    var b := MapSpins(js, n);
    var calls;
    r, disk', calls := Boosters.Boosters(env, disk, b.gf, b.j, Dl, store, mpiSize);
    BoostShaped(env, disk, b.gf, b.j, Dl, store);
    twoIMin := Max(Abs(b.j.a - b.j.b), Abs(b.j.c - b.j.d));
  }

  /** The run after booster n, from the run before it. */
  method Advance(env: Env, disk: Disk, js: seq<int>, Dl: nat, store: bool, mpiSize: nat, n: int,
                 prev: Result<seq<Reply>>, cur: Disk)
    returns (r: Result<seq<Reply>>, twoIMin: int, disk': Disk)
    requires |js| == 10 && 2 <= n <= 5 && 0 < mpiSize && DiskShaped(env, disk) && VertexFits(env, js, Dl)
    requires prev.Ok? && RunUpTo(env, disk, js, Dl, store, n) == (prev, cur)
    ensures (r, disk') == RunUpTo(env, disk, js, Dl, store, n + 1)
    ensures twoIMin == TwoMin(MapSpins(js, n).j)
  {
    var x;
    x, disk', twoIMin := BoosterAt(env, cur, js, Dl, store, mpiSize, n);
    if x.Err? {
      r := Err(x.error);
    } else {
      r := Ok(prev.value + [x.value]);
    }
  }

  /** sl2cfoam_boosters_tensors_vertex: the four requests for nodes 2..5 of
      the vertex with spins js, each storing its tensor when store holds.
      run holds b2, b3, b4 and b5 in this order. */
  method TensorsVertex(env: Env, disk: Disk, js: seq<int>, Dl: nat, store: bool, mpiSize: nat)
    returns (run: Result<seq<Reply>>, twoIMins: seq<int>, disk': Disk)
    requires |js| == 10 && 0 < mpiSize && DiskShaped(env, disk) && VertexFits(env, js, Dl)
    ensures (run, disk') == RunUpTo(env, disk, js, Dl, store, 6)
    ensures run.Ok? ==> twoIMins == [TwoMin(MapSpins(js, 2).j), TwoMin(MapSpins(js, 3).j),
                                     TwoMin(MapSpins(js, 4).j), TwoMin(MapSpins(js, 5).j)]
  {
    // boosters 2, 3, 4 and 5; a fatal error in one ends the program
    var m2, m3, m4, m5 := 0, 0, 0, 0;
    run, m2, disk' := Advance(env, disk, js, Dl, store, mpiSize, 2, Ok([]), disk);
    ghost var reached := 3;
    if run.Ok? {
      run, m3, disk' := Advance(env, disk, js, Dl, store, mpiSize, 3, run, disk');
      reached := 4;
      if run.Ok? {
        run, m4, disk' := Advance(env, disk, js, Dl, store, mpiSize, 4, run, disk');
        reached := 5;
        if run.Ok? {
          run, m5, disk' := Advance(env, disk, js, Dl, store, mpiSize, 5, run, disk');
          reached := 6;
        }
      }
    }
    RunStops(env, disk, js, Dl, store, reached);
    twoIMins := [m2, m3, m4, m5];
  }
}
