/** The cache search: for a request of depth Dl, the exact depth if it is
    stored, otherwise the first stored depth among Dl+1, ..., DL_MAX and then
    Dl-1, ..., 0. The disk is seen here only as the set of depths stored for
    the request's spins and gauge. */
module CacheSearch {
  import opened Shape

  /** Outcome of the search. */
  datatype Hit = Exact | Partial(dl: int) | Miss

  /** Largest depth the upward scan probes: DL_MAX, or DL_MAX+1 when the
      request is already at DL_MAX (the scan always probes Dl+1 once). */
  function Top(Dl: nat): int { Max(Dl + 1, DL_MAX) }

  /** lo, lo+1, ..., hi. */
  function Up(lo: int, hi: int): (s: seq<int>)
    ensures |s| == if hi < lo then 0 else hi - lo + 1
    ensures forall i :: 0 <= i < |s| ==> s[i] == lo + i
    decreases hi - lo
  {
    if hi < lo then [] else [lo] + Up(lo + 1, hi)
  }

  /** hi, hi-1, ..., 0. */
  function Down(hi: int): (s: seq<int>)
    ensures |s| == if hi < 0 then 0 else hi + 1
    ensures forall i :: 0 <= i < |s| ==> s[i] == hi - i
    decreases hi
  {
    if hi < 0 then [] else [hi] + Down(hi - 1)
  }

  /** The depths probed after the exact one fails, in probing order. */
  function Candidates(Dl: nat): seq<int>
  {
    Up(Dl + 1, Top(Dl)) + Down(Dl - 1)
  }

  /** Position of the first candidate that is stored (|cands| when none is). */
  function FirstStored(cands: seq<int>, stored: set<int>): (k: nat)
    ensures k <= |cands|
    ensures forall i :: 0 <= i < k ==> cands[i] !in stored
    ensures k < |cands| ==> cands[k] in stored
  {
    if |cands| == 0 then 0
    else if cands[0] in stored then 0
    else 1 + FirstStored(cands[1..], stored)
  }

  /** The tensor the engine starts from. */
  function Resolve(stored: set<int>, Dl: nat): (h: Hit)
    ensures h == Exact <==> Dl in stored
    ensures h.Partial? ==> h.dl in stored && 0 <= h.dl <= Top(Dl) && h.dl != Dl
  {
    if Dl in stored then Exact
    else
      var cands := Candidates(Dl);
      var k := FirstStored(cands, stored);
      if k < |cands| then CandidateAt(Dl, k); Partial(cands[k]) else Miss
  }

  /** Declarative description of the search order: the exact depth; else
      the nearest stored depth above Dl up to Top(Dl); else the nearest one
      below Dl; else nothing. */
  ghost predicate UpwardFirst(stored: set<int>, Dl: nat, h: Hit)
  {
    match h
    case Exact => Dl in stored
    case Partial(c) =>
      Dl !in stored && c in stored &&
      ((Dl < c <= Top(Dl) && forall x :: Dl < x < c ==> x !in stored) ||
       (0 <= c < Dl && (forall x :: Dl < x <= Top(Dl) ==> x !in stored) &&
        forall x :: c < x < Dl ==> x !in stored))
    case Miss => forall x :: 0 <= x <= Top(Dl) ==> x !in stored
  }

  lemma CandidateAt(Dl: nat, i: nat)
    requires i < |Candidates(Dl)|
    ensures |Candidates(Dl)| == Top(Dl)
    ensures Candidates(Dl)[i] == if i < Top(Dl) - Dl then Dl + 1 + i else Dl - 1 - (i - (Top(Dl) - Dl))
  {
  }

  /** Resolve follows the declarative search order. */
  lemma ResolveIsUpwardFirst(stored: set<int>, Dl: nat)
    ensures UpwardFirst(stored, Dl, Resolve(stored, Dl))
  {
    if Dl !in stored {
      var cands := Candidates(Dl);
      var k := FirstStored(cands, stored);
      var u := Top(Dl) - Dl;
      assert |cands| == u + Dl;
      forall x | Dl < x <= Top(Dl) && (k >= |cands| || x < cands[k] || cands[k] < Dl)
        ensures x !in stored
      {
        CandidateAt(Dl, x - Dl - 1);
      }
      forall x | 0 <= x < Dl && (k >= |cands| || (cands[k] < x))
        ensures x !in stored
      {
        CandidateAt(Dl, u + Dl - 1 - x);
      }
      if k < |cands| {
        CandidateAt(Dl, k);
      }
    }
  }

  /** The declarative order admits one outcome only, so it pins Resolve down. */
  lemma UpwardFirstUnique(stored: set<int>, Dl: nat, h: Hit, h': Hit)
    requires UpwardFirst(stored, Dl, h) && UpwardFirst(stored, Dl, h')
    ensures h == h'
  {
  }

  /** The update of dli after each probe: up while above Dl, reset to Dl-1
      once past DL_MAX, then down. */
  function Step(Dl: nat, dli: int): (r: int)
    ensures r > Dl <==> Dl < dli < DL_MAX
    ensures r > Dl ==> r == dli + 1
    ensures r <= Dl ==> r < Dl
  {
    var next := if dli > Dl then dli + 1 else dli - 1;
    if next > DL_MAX then Dl - 1 else next
  }

  /** Step walks the candidates in order and leaves 0 behind by going negative. */
  lemma StepNext(Dl: nat, k: nat)
    requires Dl <= DL_MAX && k < |Candidates(Dl)|
    ensures k + 1 < |Candidates(Dl)| ==> Step(Dl, Candidates(Dl)[k]) == Candidates(Dl)[k + 1]
    ensures k + 1 == |Candidates(Dl)| ==> Step(Dl, Candidates(Dl)[k]) < 0
  {
    CandidateAt(Dl, k);
    if k + 1 < |Candidates(Dl)| {
      CandidateAt(Dl, k + 1);
    }
  }

  /** With depths 1 and 3 stored, a request for 2 starts from 3. */
  lemma SearchPrefersLarger()
    ensures Resolve({1, 3}, 2) == Partial(3)
  {
    assert Candidates(2)[0] == 3;
  }

  /** At Dl == DL_MAX the scan probes DL_MAX+1 first; when that depth is not
      stored (this engine never stores it) that probe changes nothing and
      the search falls straight to the depths below. */
  lemma SearchAtMaximum(stored: set<int>)
    requires DL_MAX + 1 !in stored
    ensures Candidates(DL_MAX)[0] == DL_MAX + 1
    ensures Resolve(stored, DL_MAX).Partial? ==> Resolve(stored, DL_MAX).dl < DL_MAX
  {
    ResolveIsUpwardFirst(stored, DL_MAX);
  }

  /** The do...while search of the source. found/twoDlFound as there:
      found says whether any tensor was found, twoDlFound is twice its depth. */
  method SearchCache(stored: set<int>, Dl: nat) returns (found: bool, twoDlFound: int)
    requires Dl <= DL_MAX
    ensures found <==> Resolve(stored, Dl) != Miss
    ensures Resolve(stored, Dl) == Exact ==> twoDlFound == 2 * Dl
    ensures Resolve(stored, Dl).Partial? ==> twoDlFound == 2 * Resolve(stored, Dl).dl
    ensures !found ==> twoDlFound == 0
  {
    found, twoDlFound := false, 0;
    if Dl in stored {
      found, twoDlFound := true, 2 * Dl;
    } else {
      ghost var cands := Candidates(Dl);
      ghost var k := 0;
      var dli := Dl + 1;
      // the first test of the source's do...while holds here, so a while loop is the same
      while !found && dli >= 0
        invariant 0 <= k <= |cands|
        invariant found ==> 1 <= k && FirstStored(cands, stored) == k - 1 && twoDlFound == 2 * cands[k - 1]
        invariant !found ==> twoDlFound == 0 && k <= FirstStored(cands, stored)
        invariant !found && k < |cands| ==> dli == cands[k]
        invariant !found && k == |cands| ==> dli < 0
        decreases |cands| - k
      {
        StepNext(Dl, k);
        ghost var probed := dli;
        if dli in stored {
          found, twoDlFound := true, 2 * dli;
        }
        if dli > Dl {
          dli := dli + 1;
        } else {
          dli := dli - 1;
        }
        if dli > DL_MAX {
          dli := Dl - 1;
        }
        assert dli == Step(Dl, probed);
        k := k + 1;
      }
    }
  }
}
