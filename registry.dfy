/** The merge rule of the particle list (append_particle in
    analyseContour.py).

    A candidate is admitted when it is circular enough, has enough contour
    points, and no member it overlaps is more circular than it; the members
    it overlaps (all of them no more circular than it) are then replaced by
    it, at the end of the list. Two particles overlap when their centers
    are closer than a fraction of their summed radii. */
module Registry {
  import opened Common
  import opened RealMath
  import opened Geometry
  import opened Settings
  import opened Descriptors

  /** Distance between the centers of two particles. */
  function CenterDistance(a: Particle, b: Particle): (d: real)
    ensures 0.0 <= d
  {
    Sqrt(Sq(a.center.x - b.center.x) + Sq(a.center.y - b.center.y))
  }

  predicate Overlap(member: Particle, cand: Particle, distTol: real)
  {
    CenterDistance(member, cand) < distTol * (member.radius + cand.radius)
  }

  /** A member the candidate replaces. */
  predicate Beaten(member: Particle, cand: Particle, distTol: real)
  {
    Overlap(member, cand, distTol) && cand.circularity >= member.circularity
  }

  /** A member that keeps the candidate out. */
  predicate Blocks(member: Particle, cand: Particle, distTol: real)
  {
    Overlap(member, cand, distTol) && cand.circularity < member.circularity
  }

  /** The candidate's own tests: its circularity and its number of contour
      points against the thresholds. */
  predicate PassesThresholds(circularity: real, nPoints: int, para: ContourParameters)
  {
    !(circularity < para.circTol) && !(nPoints as real < para.nbTol * para.nbPoints as real)
  }

  /** Positions below k of the members the candidate beats, ascending. */
  function FlagsUpTo(list: seq<Particle>, cand: Particle, distTol: real, k: nat): seq<nat>
    requires k <= |list|
  {
    if k == 0 then []
    else FlagsUpTo(list, cand, distTol, k - 1) + (if Beaten(list[k - 1], cand, distTol) then [k - 1] else [])
  }

  /** Some member below position k blocks the candidate. */
  predicate BlockedUpTo(list: seq<Particle>, cand: Particle, distTol: real, k: nat)
    requires k <= |list|
  {
    k > 0 && (BlockedUpTo(list, cand, distTol, k - 1) || Blocks(list[k - 1], cand, distTol))
  }

  function Flagged(list: seq<Particle>, cand: Particle, distTol: real): set<int>
  {
    Elements(FlagsUpTo(list, cand, distTol, |list|))
  }

  /** Whether append_particle admits a candidate with nPoints contour
      points. */
  predicate Admits(list: seq<Particle>, cand: Particle, nPoints: int, para: ContourParameters)
  {
    PassesThresholds(cand.circularity, nPoints, para) && !BlockedUpTo(list, cand, para.distTol, |list|)
  }

  /** The list append_particle returns. */
  function Appended(list: seq<Particle>, cand: Particle, nPoints: int, para: ContourParameters): seq<Particle>
  {
    if Admits(list, cand, nPoints, para) then Without(list, Flagged(list, cand, para.distTol)) + [cand]
    else list
  }

  // ---------------------------------------------------------------------
  // Properties

  lemma {:induction false} FlagsUpToSpec(list: seq<Particle>, cand: Particle, distTol: real, k: nat)
    requires k <= |list|
    ensures StrictlyIncreasing(FlagsUpTo(list, cand, distTol, k))
    ensures forall j :: j in FlagsUpTo(list, cand, distTol, k) <==>
      0 <= j < k && Beaten(list[j], cand, distTol)
  {
    if k > 0 {
      FlagsUpToSpec(list, cand, distTol, k - 1);
      var r := FlagsUpTo(list, cand, distTol, k - 1);
      assert forall i :: 0 <= i < |r| ==> r[i] in r;
    }
  }

  lemma {:induction false} BlockedUpToSpec(list: seq<Particle>, cand: Particle, distTol: real, k: nat)
    requires k <= |list|
    ensures BlockedUpTo(list, cand, distTol, k) <==>
      exists j :: 0 <= j < k && Blocks(list[j], cand, distTol)
  {
    if k > 0 {
      BlockedUpToSpec(list, cand, distTol, k - 1);
    }
  }

  /** Once a member below k blocks the candidate, one below any later
      bound does. */
  lemma {:induction false} BlockedLater(list: seq<Particle>, cand: Particle, distTol: real, k: nat, m: nat)
    requires k <= m <= |list| && BlockedUpTo(list, cand, distTol, k)
    ensures BlockedUpTo(list, cand, distTol, m)
  {
    if k < m {
      BlockedLater(list, cand, distTol, k, m - 1);
    }
  }

  /** A candidate below either threshold is refused and the list is left
      as it was. */
  lemma BelowThresholdsRefused(list: seq<Particle>, cand: Particle, nPoints: int, para: ContourParameters)
    requires cand.circularity < para.circTol || nPoints as real < para.nbTol * para.nbPoints as real
    ensures !Admits(list, cand, nPoints, para)
    ensures Appended(list, cand, nPoints, para) == list
  {
  }

  /** A candidate that overlaps a more circular member is refused and the
      list is left as it was, whatever the members scanned before. */
  lemma BlockedRefused(list: seq<Particle>, cand: Particle, nPoints: int, para: ContourParameters, j: nat)
    requires j < |list| && Blocks(list[j], cand, para.distTol)
    ensures !Admits(list, cand, nPoints, para)
    ensures Appended(list, cand, nPoints, para) == list
  {
    BlockedUpToSpec(list, cand, para.distTol, |list|);
  }

  /** An admitted candidate passed both thresholds and overlaps no more
      circular member. The new list is the old one without exactly the
      members the candidate overlaps (each of them no more circular than
      it), in their old order, followed by the candidate. */
  lemma AdmittedShape(list: seq<Particle>, cand: Particle, nPoints: int, para: ContourParameters)
    requires Admits(list, cand, nPoints, para)
    ensures cand.circularity >= para.circTol
    ensures nPoints as real >= para.nbTol * para.nbPoints as real
    ensures forall j :: 0 <= j < |list| ==> !Blocks(list[j], cand, para.distTol)
    ensures forall j :: j in Flagged(list, cand, para.distTol) <==>
      0 <= j < |list| && Overlap(list[j], cand, para.distTol)
    ensures forall j :: j in Flagged(list, cand, para.distTol) ==>
      list[j].circularity <= cand.circularity
    ensures Appended(list, cand, nPoints, para) == Without(list, Flagged(list, cand, para.distTol)) + [cand]
    ensures Appended(list, cand, nPoints, para)[|Appended(list, cand, nPoints, para)| - 1] == cand
  {
    BlockedUpToSpec(list, cand, para.distTol, |list|);
    FlagsUpToSpec(list, cand, para.distTol, |list|);
  }

  /** No two members overlap (the earlier one taken as the member, the
      later one as the candidate). */
  ghost predicate NoOverlaps(list: seq<Particle>, distTol: real)
  {
    forall i, j :: 0 <= i < j < |list| ==> !Overlap(list[i], list[j], distTol)
  }

  /** Every member is circular enough. */
  ghost predicate AllCircular(list: seq<Particle>, circTol: real)
  {
    forall i :: 0 <= i < |list| ==> list[i].circularity >= circTol
  }

  /** A list built by append_particle alone, from an empty list and with
      one setting, has no overlapping members and only circular enough
      ones: each call keeps both. */
  lemma AppendedKeepsRegistry(list: seq<Particle>, cand: Particle, nPoints: int, para: ContourParameters)
    requires NoOverlaps(list, para.distTol) && AllCircular(list, para.circTol)
    ensures NoOverlaps(Appended(list, cand, nPoints, para), para.distTol)
    ensures AllCircular(Appended(list, cand, nPoints, para), para.circTol)
  {
    if Admits(list, cand, nPoints, para) {
      var drop := Flagged(list, cand, para.distTol);
      var kept := Without(list, drop);
      var ks := Kept(|list|, drop);
      AdmittedShape(list, cand, nPoints, para);
      WithoutSpec(list, drop);
      KeptSpec(|list|, drop);
      var result := kept + [cand];
      forall i, j | 0 <= i < j < |result|
        ensures !Overlap(result[i], result[j], para.distTol)
      {
        assert ks[i] in ks;
        if j < |kept| {
          assert result[i] == list[ks[i]] && result[j] == list[ks[j]];
        } else {
          assert result[i] == list[ks[i]] && ks[i] !in drop;
        }
      }
      forall i | 0 <= i < |result| ensures result[i].circularity >= para.circTol {
        if i < |kept| {
          assert ks[i] in ks;
        }
      }
    }
  }

  /** Every member of the new list was in the old one or is the
      candidate. */
  lemma AppendedMembers(list: seq<Particle>, cand: Particle, nPoints: int, para: ContourParameters)
    ensures forall p :: p in Appended(list, cand, nPoints, para) ==> p in list || p == cand
  {
    if Admits(list, cand, nPoints, para) {
      var drop := Flagged(list, cand, para.distTol);
      WithoutSpec(list, drop);
      forall p | p in Without(list, drop) ensures p in list {
        var j :| 0 <= j < |Without(list, drop)| && Without(list, drop)[j] == p;
        assert p == list[Kept(|list|, drop)[j]];
      }
    }
  }

  // ---------------------------------------------------------------------
  // The program's loops

  /** append_particle: the candidate's own tests, the scan over the
      members (ScanMembers), then the removal of the beaten members and the
      append. */
  method AppendParticle(particleList: seq<Particle>, newParticle: Particle, para: Search)
    returns (result: seq<Particle>, added: bool)
    ensures added == Admits(particleList, newParticle, |newParticle.contour|, para.contourPara)
    ensures result == Appended(particleList, newParticle, |newParticle.contour|, para.contourPara)
  {
    var distTol := para.contourPara.distTol;
    var circTol := para.contourPara.circTol;
    var nbTol, nbPoints := para.contourPara.nbTol, para.contourPara.nbPoints;
    var nPoints := |newParticle.contour|;

    added := true;
    if newParticle.circularity < circTol {
      added := false;
    } else if nPoints as real < nbTol * nbPoints as real {
      added := false;
    }
    assert added == PassesThresholds(newParticle.circularity, nPoints, para.contourPara);

    var flags: seq<nat> := [];
    if |particleList| > 0 && added {
      var blocked;
      flags, blocked := ScanMembers(particleList, newParticle, distTol);
      added := !blocked;
    }

    result := particleList;
    if added {
      FlagsUpToSpec(particleList, newParticle, distTol, |particleList|);
      assert forall j :: 0 <= j < |flags| ==> flags[j] in flags;
      result := PopInReverse(result, flags);
      result := result + [newParticle];
    }
  }

  /** The loop of append_particle over the members: it stops at the first
      member that blocks the candidate, and until then collects the
      positions of the members the candidate beats. */
  method ScanMembers(particleList: seq<Particle>, newParticle: Particle, distTol: real)
    returns (flags: seq<nat>, blocked: bool)
    ensures blocked == BlockedUpTo(particleList, newParticle, distTol, |particleList|)
    ensures !blocked ==> flags == FlagsUpTo(particleList, newParticle, distTol, |particleList|)
  {
    flags := [];
    blocked := false;
    var count := 0;
    while count < |particleList|
      invariant 0 <= count <= |particleList|
      invariant !BlockedUpTo(particleList, newParticle, distTol, count)
      invariant flags == FlagsUpTo(particleList, newParticle, distTol, count)
    {
      var particle := particleList[count];
      var dist := CenterDistance(particle, newParticle);
      if dist < distTol * (particle.radius + newParticle.radius) {
        if newParticle.circularity >= particle.circularity {
          assert Beaten(particle, newParticle, distTol);
          assert FlagsUpTo(particleList, newParticle, distTol, count + 1) == flags + [count];
          flags := flags + [count];
        } else {
          assert Blocks(particle, newParticle, distTol);
          blocked := true;
          BlockedLater(particleList, newParticle, distTol, count + 1, |particleList|);
          return;
        }
      } else {
        assert !Overlap(particle, newParticle, distTol);
        assert FlagsUpTo(particleList, newParticle, distTol, count + 1) == flags;
      }
      count := count + 1;
    }
  }
}
