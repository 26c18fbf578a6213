/** Small value types and sequence operations shared by the whole model:
    an Option type, integer min/max, sums of reals, and the two list
    operations the program relies on -- removing a set of indices from a
    list (Python's repeated `pop`) and listing a set of indices in
    ascending order (Python's `sorted` of a de-duplicated list). */
module Common {

  datatype Option<T> = None | Some(value: T)

  function Max(a: int, b: int): int { if a >= b then a else b }

  function Min(a: int, b: int): int { if a <= b then a else b }

  /** Sum of a sequence of reals, accumulated from the front like the
      program's `total += ...` loops. */
  function Sum(s: seq<real>): real
    decreases |s|
  {
    if |s| == 0 then 0.0 else Sum(s[..|s| - 1]) + s[|s| - 1]
  }

  lemma SumStep(s: seq<real>, k: nat)
    requires k < |s|
    ensures Sum(s[..k + 1]) == Sum(s[..k]) + s[k]
  {
    assert s[..k + 1][..k] == s[..k];
  }

  lemma SumAppend(s: seq<real>, x: real)
    ensures Sum(s + [x]) == Sum(s) + x
  {
    assert (s + [x])[..|s|] == s;
  }

  lemma {:induction false} SumConcat(a: seq<real>, b: seq<real>)
    ensures Sum(a + b) == Sum(a) + Sum(b)
    decreases |b|
  {
    if |b| == 0 {
      assert a + b == a;
    } else {
      var init := b[..|b| - 1];
      assert (a + b)[..|a + b| - 1] == a + init;
      SumConcat(a, init);
    }
  }

  lemma {:induction false} SumNonNegative(s: seq<real>)
    requires forall i :: 0 <= i < |s| ==> 0.0 <= s[i]
    ensures 0.0 <= Sum(s)
  {
    if |s| > 0 {
      SumNonNegative(s[..|s| - 1]);
    }
  }

  /** A sum of non-negative terms is zero only when every term is. */
  lemma {:induction false} SumZeroTerms(s: seq<real>)
    requires forall i :: 0 <= i < |s| ==> 0.0 <= s[i]
    requires Sum(s) == 0.0
    ensures forall i :: 0 <= i < |s| ==> s[i] == 0.0
  {
    if |s| > 0 {
      var init := s[..|s| - 1];
      SumNonNegative(init);
      SumZeroTerms(init);
      forall i | 0 <= i < |s| ensures s[i] == 0.0 {
        if i < |s| - 1 {
          assert s[i] == init[i];
        }
      }
    }
  }

  /** A sum of |s| copies of c is |s| * c. */
  lemma {:induction false} SumConstant(s: seq<real>, c: real)
    requires forall i :: 0 <= i < |s| ==> s[i] == c
    ensures Sum(s) == |s| as real * c
  {
    if |s| > 0 {
      SumConstant(s[..|s| - 1], c);
    }
  }

  /** Index of the element before element i of a cyclic list of n elements: the
      one before the first is the last. */
  function PrevIndex(n: nat, i: nat): (j: nat)
    requires i < n
    ensures j < n
    ensures i == 0 ==> j == n - 1
    ensures 0 < i ==> j + 1 == i
  {
    if i == 0 then n - 1 else i - 1
  }

  ghost predicate StrictlyIncreasing(s: seq<int>)
  {
    forall i, j :: 0 <= i < j < |s| ==> s[i] < s[j]
  }

  /** The indices below k that belong to `chosen`, in ascending order. */
  function IndicesBelow(k: nat, chosen: set<int>): seq<nat>
    decreases k
  {
    if k == 0 then []
    else IndicesBelow(k - 1, chosen) + (if k - 1 in chosen then [k - 1] else [])
  }

  lemma {:induction false} IndicesBelowSpec(k: nat, chosen: set<int>)
    ensures StrictlyIncreasing(IndicesBelow(k, chosen))
    ensures forall i :: i in IndicesBelow(k, chosen) <==> 0 <= i < k && i in chosen
  {
    if k > 0 {
      IndicesBelowSpec(k - 1, chosen);
      var r := IndicesBelow(k - 1, chosen);
      assert forall i :: 0 <= i < |r| ==> r[i] in r;
    }
  }

  /** The values present among the first k entries of s, in order. */
  function SomesUpTo<T>(s: seq<Option<T>>, k: nat): seq<T>
    requires k <= |s|
  {
    if k == 0 then []
    else SomesUpTo(s, k - 1) + match s[k - 1] case Some(v) => [v] case None => []
  }

  lemma {:induction false} SomesUpToSpec<T>(s: seq<Option<T>>, k: nat)
    requires k <= |s|
    ensures forall x :: x in SomesUpTo(s, k) <==> exists i :: 0 <= i < k && s[i] == Some(x)
  {
    if k > 0 {
      SomesUpToSpec(s, k - 1);
      forall x | x in SomesUpTo(s, k) && x !in SomesUpTo(s, k - 1)
        ensures s[k - 1] == Some(x)
      {
      }
    }
  }

  /** The members of a list of indices, as a set. */
  function Elements(xs: seq<nat>): set<int>
  {
    set x | x in xs
  }

  /** Python's `sorted(list(dict.fromkeys(xs)))` for a list of indices
      below n: its distinct members in ascending order. */
  function SortedUnique(xs: seq<nat>, n: nat): seq<nat>
  {
    IndicesBelow(n, Elements(xs))
  }

  lemma SortedUniqueSpec(xs: seq<nat>, n: nat)
    requires forall i :: 0 <= i < |xs| ==> xs[i] < n
    ensures StrictlyIncreasing(SortedUnique(xs, n))
    ensures forall x :: x in SortedUnique(xs, n) <==> x in xs
    ensures xs == [] ==> SortedUnique(xs, n) == []
  {
    IndicesBelowSpec(n, Elements(xs));
    if xs == [] {
      assert Elements(xs) == {};
      IndicesBelowNone(n);
    }
  }

  lemma {:induction false} IndicesBelowNone(k: nat)
    ensures IndicesBelow(k, {}) == []
  {
    if k > 0 {
      IndicesBelowNone(k - 1);
    }
  }

  /** `s` with the positions in `drop` taken out; the other elements keep
      their order. */
  function Without<T>(s: seq<T>, drop: set<int>): seq<T>
    decreases |s|
  {
    if |s| == 0 then []
    else Without(s[..|s| - 1], drop) + (if |s| - 1 in drop then [] else [s[|s| - 1]])
  }

  /** The positions Without keeps, in ascending order. */
  function Kept(k: nat, drop: set<int>): seq<nat>
    decreases k
  {
    if k == 0 then []
    else Kept(k - 1, drop) + (if k - 1 in drop then [] else [k - 1])
  }

  lemma {:induction false} KeptSpec(k: nat, drop: set<int>)
    ensures StrictlyIncreasing(Kept(k, drop))
    ensures forall i :: i in Kept(k, drop) <==> 0 <= i < k && i !in drop
  {
    if k > 0 {
      KeptSpec(k - 1, drop);
      var r := Kept(k - 1, drop);
      assert forall i :: 0 <= i < |r| ==> r[i] in r;
    }
  }

  /** Without(s, drop) lists s[i] for exactly the kept positions i, in
      ascending order of i. */
  lemma {:induction false} WithoutSpec<T>(s: seq<T>, drop: set<int>)
    ensures |Without(s, drop)| == |Kept(|s|, drop)|
    ensures forall j :: 0 <= j < |Without(s, drop)| ==>
      Kept(|s|, drop)[j] < |s| && Without(s, drop)[j] == s[Kept(|s|, drop)[j]]
  {
    KeptSpec(|s|, drop);
    if |s| > 0 {
      var init := s[..|s| - 1];
      WithoutSpec(init, drop);
      KeptSpec(|init|, drop);
      forall j | 0 <= j < |Without(s, drop)|
        ensures Kept(|s|, drop)[j] < |s| && Without(s, drop)[j] == s[Kept(|s|, drop)[j]]
      {
        if j < |Without(init, drop)| {
          assert Kept(|s|, drop)[j] == Kept(|init|, drop)[j];
          assert Kept(|init|, drop)[j] in Kept(|init|, drop);
        }
      }
    }
  }

  /** Dropping no position keeps the whole sequence. */
  lemma {:induction false} WithoutNothing<T>(s: seq<T>, drop: set<int>)
    requires forall i :: 0 <= i < |s| ==> i !in drop
    ensures Without(s, drop) == s
  {
    if |s| > 0 {
      WithoutNothing(s[..|s| - 1], drop);
    }
  }

  /** Without only looks at drop's members below |s|. */
  lemma {:induction false} WithoutSameBelow<T>(s: seq<T>, d1: set<int>, d2: set<int>)
    requires forall i :: 0 <= i < |s| ==> (i in d1 <==> i in d2)
    ensures Without(s, d1) == Without(s, d2)
  {
    if |s| > 0 {
      WithoutSameBelow(s[..|s| - 1], d1, d2);
    }
  }

  /** The step of the program's "pop in reverse order" loops: when every
      position dropped so far is above f, popping position f from the
      current list drops f as well. */
  lemma {:induction false} PopBelowDropped<T>(s: seq<T>, drop: set<int>, f: nat)
    requires f < |s|
    requires forall d :: d in drop ==> f < d
    ensures f < |Without(s, drop)|
    ensures Without(s, drop + {f}) == Without(s, drop)[..f] + Without(s, drop)[f + 1..]
  {
    PopBelowPrefix(s, drop, f, |s|);
    assert s[..|s|] == s;
  }

  lemma {:induction false} PopBelowPrefix<T>(s: seq<T>, drop: set<int>, f: nat, m: nat)
    requires f < m <= |s|
    requires forall d :: d in drop ==> f < d
    ensures f < |Without(s[..m], drop)|
    ensures Without(s[..m], drop + {f}) == Without(s[..m], drop)[..f] + Without(s[..m], drop)[f + 1..]
  {
    if m == f + 1 {
      WithoutNothing(s[..m], drop);
      assert s[..m][..m - 1] == s[..f];
      WithoutNothing(s[..f], drop + {f});
      assert Without(s[..m], drop + {f}) == Without(s[..f], drop + {f});
    } else {
      PopBelowPrefix(s, drop, f, m - 1);
      assert s[..m][..m - 1] == s[..m - 1];
      var w := Without(s[..m - 1], drop);
      var w' := Without(s[..m - 1], drop + {f});
      var tail := if m - 1 in drop then [] else [s[m - 1]];
      assert m - 1 in drop <==> m - 1 in drop + {f};
      assert Without(s[..m], drop) == w + tail;
      assert Without(s[..m], drop + {f}) == w' + tail;
      RemoveBeforeTail(w, w', tail, f);
    }
  }

  /** Removing position f before or after appending tail gives the same. */
  lemma RemoveBeforeTail<T>(w: seq<T>, w': seq<T>, tail: seq<T>, f: nat)
    requires f < |w| && w' == w[..f] + w[f + 1..]
    ensures w' + tail == (w + tail)[..f] + (w + tail)[f + 1..]
  {
    assert (w + tail)[..f] == w[..f];
    assert (w + tail)[f + 1..] == w[f + 1..] + tail;
  }

  /** Python's `for i in reversed(idx): s.pop(i)` for ascending indices
      of s: the elements at those positions are taken out. */
  method PopInReverse<T>(s: seq<T>, idx: seq<nat>) returns (r: seq<T>)
    requires StrictlyIncreasing(idx)
    requires forall j :: 0 <= j < |idx| ==> idx[j] < |s|
    ensures r == Without(s, Elements(idx))
  {
    r := s;
    WithoutNothing(s, {});
    assert Elements(idx[|idx|..]) == {};
    var j := |idx|;
    while j > 0
      invariant 0 <= j <= |idx|
      invariant r == Without(s, Elements(idx[j..]))
    {
      j := j - 1;
      var i := idx[j];
      assert Elements(idx[j..]) == Elements(idx[j + 1..]) + {i} by {
        assert idx[j..] == [i] + idx[j + 1..];
      }
      PopBelowDropped(s, Elements(idx[j + 1..]), i);
      r := r[..i] + r[i + 1..];
    }
    assert idx[0..] == idx;
  }
}
