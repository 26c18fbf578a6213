/** The statistics the contour descriptors take of a list of values (the
    radial distances of a contour's points): mean, variance about the mean,
    and the mean squared change between cyclically consecutive values. */
module Statistics {
  import opened Common
  import opened RealMath

  /** The mean, or zero for no values. */
  function Mean(s: seq<real>): real
  {
    if |s| > 0 then Sum(s) / |s| as real else 0.0
  }

  /** Sum of the squared deviations of the first k values from m. */
  function SqDevUpTo(s: seq<real>, k: nat, m: real): (r: real)
    requires k <= |s|
    ensures 0.0 <= r
  {
    if k == 0 then 0.0 else SqDevUpTo(s, k - 1, m) + Sq(s[k - 1] - m)
  }

  function Variance(s: seq<real>): (r: real)
    ensures 0.0 <= r
  {
    if |s| > 0 then
      DivNonNegative(SqDevUpTo(s, |s|, Mean(s)), |s| as real);
      SqDevUpTo(s, |s|, Mean(s)) / |s| as real
    else 0.0
  }

  /** Squared change from the value before i to value i; the value before
      the first one is the last one. */
  function StepAt(s: seq<real>, i: nat): real
    requires i < |s|
  {
    Sq(s[i] - s[PrevIndex(|s|, i)])
  }

  function StepUpTo(s: seq<real>, k: nat): (r: real)
    requires k <= |s|
    ensures 0.0 <= r
  {
    if k == 0 then 0.0 else StepUpTo(s, k - 1) + StepAt(s, k - 1)
  }

  function StepVariance(s: seq<real>): (r: real)
    ensures 0.0 <= r
  {
    if |s| > 0 then
      DivNonNegative(StepUpTo(s, |s|), |s| as real);
      StepUpTo(s, |s|) / |s| as real
    else 0.0
  }

  /** The mean of non-negative values is non-negative. */
  lemma MeanNonNegative(s: seq<real>)
    requires forall i :: 0 <= i < |s| ==> 0.0 <= s[i]
    ensures 0.0 <= Mean(s)
  {
    if |s| > 0 {
      SumNonNegative(s);
      DivNonNegative(Sum(s), |s| as real);
    }
  }

  /** Values that all equal v deviate from v by nothing. */
  lemma {:induction false} ConstantSqDev(s: seq<real>, k: nat, v: real)
    requires k <= |s|
    requires forall i :: 0 <= i < |s| ==> s[i] == v
    ensures SqDevUpTo(s, k, v) == 0.0
  {
    if k > 0 {
      ConstantSqDev(s, k - 1, v);
    }
  }

  /** A zero sum of non-negative squared terms has every term zero. */
  lemma {:induction false} SqDevZeroTerms(s: seq<real>, k: nat, m: real, i: nat)
    requires i < k <= |s|
    requires SqDevUpTo(s, k, m) == 0.0
    ensures s[i] == m
  {
    if i < k - 1 {
      SqDevZeroTerms(s, k - 1, m, i);
    } else {
      SqZero(s[i] - m);
    }
  }

  lemma {:induction false} StepZeroTerms(s: seq<real>, k: nat, i: nat)
    requires i < k <= |s|
    requires StepUpTo(s, k) == 0.0
    ensures s[i] == s[PrevIndex(|s|, i)]
  {
    if i < k - 1 {
      StepZeroTerms(s, k - 1, i);
    } else {
      SqZero(s[i] - s[PrevIndex(|s|, i)]);
    }
  }

  lemma {:induction false} StepsZeroAllEqual(s: seq<real>, i: nat)
    requires i < |s|
    requires StepUpTo(s, |s|) == 0.0
    ensures s[i] == s[0]
  {
    if i > 0 {
      StepsZeroAllEqual(s, i - 1);
      StepZeroTerms(s, |s|, i);
    }
  }

  /** Values with no spread about their mean show no change between
      consecutive values, and the other way round: the variance is zero
      exactly when the cyclic step variance is. */
  lemma SpreadIffSteps(s: seq<real>)
    ensures Variance(s) == 0.0 <==> StepVariance(s) == 0.0
  {
    if |s| > 0 {
      var n := |s| as real;
      if StepVariance(s) == 0.0 {
        assert StepUpTo(s, |s|) == StepVariance(s) * n;
        forall i | 0 <= i < |s| ensures s[i] == s[0] {
          StepsZeroAllEqual(s, i);
        }
        SumConstant(s, s[0]);
        ConstantSqDev(s, |s|, s[0]);
        assert Mean(s) == s[0];
      }
      if Variance(s) == 0.0 {
        var m := Mean(s);
        assert SqDevUpTo(s, |s|, m) == Variance(s) * n;
        forall i | 0 <= i < |s| ensures s[i] == m {
          SqDevZeroTerms(s, |s|, m, i);
        }
        forall i | 0 <= i < |s| ensures s[i] == s[0] {
        }
        ConstantSteps(s, |s|);
      }
    }
  }

  lemma {:induction false} ConstantSteps(s: seq<real>, k: nat)
    requires k <= |s|
    requires forall i :: 0 <= i < |s| ==> s[i] == s[0]
    ensures StepUpTo(s, k) == 0.0
  {
    if k > 0 {
      ConstantSteps(s, k - 1);
      assert StepAt(s, k - 1) == Sq(0.0);
    }
  }
}
