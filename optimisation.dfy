/** The array scans of optimisation.py: the mean of the nonzero entries of
    an image (average_value) and a window test for local maxima
    (find_local_maxima). An image is a two-dimensional array, its first
    index the row. */
module Optimisation {
  import opened Common
  import opened Geometry
  import opened NumpyOps

  // ---------------------------------------------------------------------
  // average_value

  /** The nonzero entries of row i left of column k, left to right. */
  function RowNonZeros(a: array2<real>, i: nat, k: nat): seq<real>
    reads a
    requires i < a.Length0 && k <= a.Length1
  {
    if k == 0 then []
    else RowNonZeros(a, i, k - 1) + (if a[i, k - 1] != 0.0 then [a[i, k - 1]] else [])
  }

  /** The nonzero entries of the rows above row i, in row-major order. */
  function NonZerosBelow(a: array2<real>, i: nat): seq<real>
    reads a
    requires i <= a.Length0
  {
    if i == 0 then [] else NonZerosBelow(a, i - 1) + RowNonZeros(a, i - 1, a.Length1)
  }

  /** The nonzero entries of the whole image, in row-major order. */
  function NonZeros(a: array2<real>): seq<real>
    reads a
  {
    NonZerosBelow(a, a.Length0)
  }

  /** What average_value returns: the mean of the nonzero entries, or 0
      when there are none. */
  function Average(a: array2<real>): real
    reads a
  {
    var nz := NonZeros(a);
    if |nz| == 0 then 0.0 else Sum(nz) / |nz| as real
  }

  predicate InImage(a: array2<real>, i: int, j: int)
  {
    0 <= i < a.Length0 && 0 <= j < a.Length1
  }

  lemma {:induction false} RowNonZerosSpec(a: array2<real>, i: nat, k: nat)
    requires i < a.Length0 && k <= a.Length1
    ensures forall x :: x in RowNonZeros(a, i, k) <==>
      x != 0.0 && exists j :: 0 <= j < k && a[i, j] == x
  {
    if k > 0 {
      RowNonZerosSpec(a, i, k - 1);
    }
  }

  lemma {:induction false} NonZerosBelowSpec(a: array2<real>, i: nat)
    requires i <= a.Length0
    ensures forall x :: x in NonZerosBelow(a, i) <==>
      x != 0.0 && exists r, j :: 0 <= r < i && InImage(a, r, j) && a[r, j] == x
  {
    if i > 0 {
      NonZerosBelowSpec(a, i - 1);
      RowNonZerosSpec(a, i - 1, a.Length1);
    }
  }

  /** The entries the average is taken over are exactly the nonzero entries
      of the image: zeros take no part in it. */
  lemma NonZerosSpec(a: array2<real>)
    ensures forall x :: x in NonZeros(a) <==>
      x != 0.0 && exists r, j :: InImage(a, r, j) && a[r, j] == x
  {
    NonZerosBelowSpec(a, a.Length0);
  }

  /** The entries of row i left of column k, left to right. */
  function RowEntries(a: array2<real>, i: nat, k: nat): (e: seq<real>)
    reads a
    requires i < a.Length0 && k <= a.Length1
    ensures |e| == k
  {
    if k == 0 then [] else RowEntries(a, i, k - 1) + [a[i, k - 1]]
  }

  /** The entries of the rows above row i, in row-major order. */
  function EntriesBelow(a: array2<real>, i: nat): seq<real>
    reads a
    requires i <= a.Length0
  {
    if i == 0 then [] else EntriesBelow(a, i - 1) + RowEntries(a, i - 1, a.Length1)
  }

  /** Every entry of the image, in row-major order. */
  function Entries(a: array2<real>): seq<real>
    reads a
  {
    EntriesBelow(a, a.Length0)
  }

  lemma {:induction false} RowEntriesSpec(a: array2<real>, i: nat, k: nat)
    requires i < a.Length0 && k <= a.Length1
    ensures forall j :: 0 <= j < k ==> RowEntries(a, i, k)[j] == a[i, j]
  {
    if k > 0 {
      RowEntriesSpec(a, i, k - 1);
    }
  }

  /** The position of entry (r, j) when rows of length n are laid end to
      end. */
  function Flat(n: nat, r: nat, j: nat): nat
  {
    r * n + j
  }

  lemma {:induction false} EntriesBelowSpec(a: array2<real>, i: nat)
    requires i <= a.Length0
    ensures |EntriesBelow(a, i)| == i * a.Length1
    ensures forall r, j :: 0 <= r < i && 0 <= j < a.Length1 ==>
      Flat(a.Length1, r, j) < |EntriesBelow(a, i)| && EntriesBelow(a, i)[Flat(a.Length1, r, j)] == a[r, j]
  {
    if i > 0 {
      var n := a.Length1;
      var prev := EntriesBelow(a, i - 1);
      var row := RowEntries(a, i - 1, n);
      EntriesBelowSpec(a, i - 1);
      RowEntriesSpec(a, i - 1, n);
      assert |prev| == (i - 1) * n;
      BlockLength(n, i);
      forall r, j | 0 <= r < i && 0 <= j < n
        ensures Flat(n, r, j) < |prev + row| && (prev + row)[Flat(n, r, j)] == a[r, j]
      {
        BlockIndex(prev, row, n, i, r, j);
        if r < i - 1 {
          assert prev[Flat(n, r, j)] == a[r, j];
        } else {
          assert row[j] == a[r, j];
        }
      }
    }
  }

  lemma BlockLength(n: nat, i: nat)
    requires 1 <= i
    ensures (i - 1) * n + n == i * n
  {
  }

  /** Position r * n + j of rows of length n laid end to end, the last of
      them row, is in row r. */
  lemma BlockIndex(prev: seq<real>, row: seq<real>, n: nat, i: nat, r: nat, j: nat)
    requires 1 <= i && |prev| == (i - 1) * n && |row| == n && r < i && j < n
    ensures Flat(n, r, j) < |prev + row|
    ensures r < i - 1 ==> Flat(n, r, j) < |prev| && (prev + row)[Flat(n, r, j)] == prev[Flat(n, r, j)]
    ensures r == i - 1 ==> (prev + row)[Flat(n, r, j)] == row[j]
  {
    if r < i - 1 {
      assert (r + 1) * n <= (i - 1) * n;
    } else {
      assert r * n == |prev|;
    }
  }

  /** Entries lists each entry of the image once: entry (r, j) is at
      position r * dim1 + j. */
  lemma EntriesSpec(a: array2<real>)
    ensures |Entries(a)| == a.Length0 * a.Length1
    ensures forall r, j :: InImage(a, r, j) ==>
      Flat(a.Length1, r, j) < |Entries(a)| && Entries(a)[Flat(a.Length1, r, j)] == a[r, j]
  {
    EntriesBelowSpec(a, a.Length0);
  }

  /** The members of s other than 0, in order. */
  function DropZeros(s: seq<real>): seq<real>
    decreases |s|
  {
    if |s| == 0 then []
    else DropZeros(s[..|s| - 1]) + (if s[|s| - 1] != 0.0 then [s[|s| - 1]] else [])
  }

  lemma {:induction false} DropZerosAppend(s: seq<real>, x: real)
    ensures DropZeros(s + [x]) == DropZeros(s) + (if x != 0.0 then [x] else [])
  {
    assert (s + [x])[..|s|] == s;
  }

  lemma {:induction false} DropZerosConcat(s: seq<real>, t: seq<real>)
    ensures DropZeros(s + t) == DropZeros(s) + DropZeros(t)
    decreases |t|
  {
    if |t| == 0 {
      assert s + t == s;
    } else {
      var init := t[..|t| - 1];
      var x := t[|t| - 1];
      assert s + t == (s + init) + [x];
      assert t == init + [x];
      DropZerosConcat(s, init);
      DropZerosAppend(s + init, x);
      DropZerosAppend(init, x);
    }
  }

  /** Dropping the zeros removes every 0 and keeps every other member as
      often as it occurs, so it shortens s by its number of zeros and keeps
      its sum. */
  lemma DropZerosCounted(s: seq<real>)
    ensures multiset(DropZeros(s)) == multiset(s)[0.0 := 0]
    ensures |DropZeros(s)| == |s| - multiset(s)[0.0]
    ensures Sum(DropZeros(s)) == Sum(s)
  {
    DropZerosMultiset(s);
    DropZerosLength(s);
    DropZerosSum(s);
  }

  lemma {:induction false} DropZerosMultiset(s: seq<real>)
    ensures multiset(DropZeros(s)) == multiset(s)[0.0 := 0]
    decreases |s|
  {
    if |s| > 0 {
      var init := s[..|s| - 1];
      var x := s[|s| - 1];
      assert s == init + [x];
      DropZerosMultiset(init);
      assert multiset(s) == multiset(init) + multiset{x};
      if x != 0.0 {
        assert multiset(DropZeros(s)) == multiset(DropZeros(init)) + multiset{x};
        assert multiset(s)[0.0 := 0] == multiset(init)[0.0 := 0] + multiset{x};
      } else {
        assert multiset(s)[0.0 := 0] == multiset(init)[0.0 := 0];
      }
    }
  }

  lemma {:induction false} DropZerosLength(s: seq<real>)
    ensures |DropZeros(s)| == |s| - multiset(s)[0.0]
    decreases |s|
  {
    if |s| > 0 {
      var init := s[..|s| - 1];
      assert s == init + [s[|s| - 1]];
      DropZerosLength(init);
      assert multiset(s) == multiset(init) + multiset{s[|s| - 1]};
    }
  }

  lemma {:induction false} DropZerosSum(s: seq<real>)
    ensures Sum(DropZeros(s)) == Sum(s)
    decreases |s|
  {
    if |s| > 0 {
      var init := s[..|s| - 1];
      var x := s[|s| - 1];
      DropZerosSum(init);
      assert s == init + [x];
      SumAppend(init, x);
      if x != 0.0 {
        SumAppend(DropZeros(init), x);
      } else {
        assert DropZeros(s) == DropZeros(init);
      }
    }
  }

  lemma {:induction false} RowNonZerosDropZeros(a: array2<real>, i: nat, k: nat)
    requires i < a.Length0 && k <= a.Length1
    ensures RowNonZeros(a, i, k) == DropZeros(RowEntries(a, i, k))
  {
    if k > 0 {
      RowNonZerosDropZeros(a, i, k - 1);
      DropZerosAppend(RowEntries(a, i, k - 1), a[i, k - 1]);
    }
  }

  lemma {:induction false} NonZerosBelowDropZeros(a: array2<real>, i: nat)
    requires i <= a.Length0
    ensures NonZerosBelow(a, i) == DropZeros(EntriesBelow(a, i))
  {
    if i > 0 {
      NonZerosBelowDropZeros(a, i - 1);
      RowNonZerosDropZeros(a, i - 1, a.Length1);
      DropZerosConcat(EntriesBelow(a, i - 1), RowEntries(a, i - 1, a.Length1));
    }
  }

  /** The nonzero entries are the entries with every zero taken out and
      every other entry kept as often as it occurs: as many as the image has
      nonzero entries, and with the sum of the whole image. */
  lemma NonZerosCounted(a: array2<real>)
    ensures multiset(NonZeros(a)) == multiset(Entries(a))[0.0 := 0]
    ensures |NonZeros(a)| == a.Length0 * a.Length1 - multiset(Entries(a))[0.0]
    ensures Sum(NonZeros(a)) == Sum(Entries(a))
  {
    NonZerosBelowDropZeros(a, a.Length0);
    DropZerosCounted(Entries(a));
    EntriesSpec(a);
  }

  lemma {:induction false} ZeroRow(a: array2<real>, i: nat, k: nat)
    requires i < a.Length0 && k <= a.Length1
    requires forall j :: 0 <= j < k ==> a[i, j] == 0.0
    ensures RowNonZeros(a, i, k) == []
  {
    if k > 0 {
      ZeroRow(a, i, k - 1);
    }
  }

  lemma {:induction false} ZeroRowsBelow(a: array2<real>, i: nat)
    requires i <= a.Length0
    requires forall r, j :: 0 <= r < i && 0 <= j < a.Length1 ==> a[r, j] == 0.0
    ensures NonZerosBelow(a, i) == []
  {
    if i > 0 {
      ZeroRowsBelow(a, i - 1);
      ZeroRow(a, i - 1, a.Length1);
    }
  }

  /** The image has no nonzero entry to average exactly when every entry is
      zero, and then the average is 0. */
  lemma AllZeroAverage(a: array2<real>)
    ensures |NonZeros(a)| == 0 <==> forall r, j :: InImage(a, r, j) ==> a[r, j] == 0.0
    ensures (forall r, j :: InImage(a, r, j) ==> a[r, j] == 0.0) ==> Average(a) == 0.0
  {
    if forall r, j :: InImage(a, r, j) ==> a[r, j] == 0.0 {
      ZeroRowsBelow(a, a.Length0);
    } else {
      var r, j :| InImage(a, r, j) && a[r, j] != 0.0;
      NonZerosSpec(a);
      assert a[r, j] in NonZeros(a);
    }
  }

  /** An image whose entries are all 0 or v, with v != 0 taken at least
      once, averages to v: how many zeros there are does not matter. */
  lemma ConstantAverage(a: array2<real>, v: real, r: int, j: int)
    requires v != 0.0 && InImage(a, r, j) && a[r, j] == v
    requires forall i, k :: InImage(a, i, k) ==> a[i, k] == 0.0 || a[i, k] == v
    ensures Average(a) == v
  {
    var nz := NonZeros(a);
    ConstantNonZeros(a, v, r, j);
    SumConstant(nz, v);
    MeanOfConstant(Sum(nz), |nz|, v);
  }

  lemma ConstantNonZeros(a: array2<real>, v: real, r: int, j: int)
    requires v != 0.0 && InImage(a, r, j) && a[r, j] == v
    requires forall i, k :: InImage(a, i, k) ==> a[i, k] == 0.0 || a[i, k] == v
    ensures 0 < |NonZeros(a)|
    ensures forall k :: 0 <= k < |NonZeros(a)| ==> NonZeros(a)[k] == v
  {
    var nz := NonZeros(a);
    NonZerosSpec(a);
    assert a[r, j] in nz;
    forall k | 0 <= k < |nz| ensures nz[k] == v {
      assert nz[k] in nz;
    }
  }

  lemma MeanOfConstant(total: real, n: nat, v: real)
    requires 0 < n && total == n as real * v
    ensures total / n as real == v
  {
  }

  /** average_value: the nested loop over rows and entries with the running
      total and count of the nonzero entries. */
  method AverageValue(a: array2<real>) returns (average: real)
    ensures average == Average(a)
  {
    var total := 0.0;
    var count := 0;
    for i := 0 to a.Length0
      invariant total == Sum(NonZerosBelow(a, i))
      invariant count == |NonZerosBelow(a, i)|
    {
      SumConcat(NonZerosBelow(a, i), RowNonZeros(a, i, a.Length1));
      total, count := AccumulateRow(a, i, total, count);
    }
    if count != 0 {
      average := total / count as real;
    } else {
      average := 0.0;
    }
  }

  /** The inner loop of average_value over the entries of row i, adding
      the nonzero ones to the running total and count. */
  method AccumulateRow(a: array2<real>, i: nat, total0: real, count0: nat) returns (total: real, count: nat)
    requires i < a.Length0
    ensures total == total0 + Sum(RowNonZeros(a, i, a.Length1))
    ensures count == count0 + |RowNonZeros(a, i, a.Length1)|
  {
    total, count := total0, count0;
    for j := 0 to a.Length1
      invariant total == total0 + Sum(RowNonZeros(a, i, j))
      invariant count == count0 + |RowNonZeros(a, i, j)|
    {
      if a[i, j] != 0.0 {
        SumAppend(RowNonZeros(a, i, j), a[i, j]);
        total := total + a[i, j];
        count := count + 1;
      } else {
        assert RowNonZeros(a, i, j + 1) == RowNonZeros(a, i, j);
      }
    }
  }

  // ---------------------------------------------------------------------
  // find_local_maxima

  /** The entry at (r, c) is at least every entry of the square window of
      half-width order around it, as far as the window lies in the image. */
  ghost predicate DominatesWindow(image: array2<real>, order: nat, r: nat, c: nat)
    reads image
    requires r < image.Length0 && c < image.Length1
  {
    forall i, j :: InImage(image, i, j) && r - order <= i <= r + order && c - order <= j <= c + order ==>
      image[i, j] <= image[r, c]
  }

  /** A position find_local_maxima reports: one it scans (order from each
      edge at the low end, order - 1 at the high end), whose entry reaches
      the threshold and dominates its window. */
  ghost predicate IsMaximum(image: array2<real>, order: nat, threshold: real, r: int, c: int)
    reads image
    requires 1 <= order
  {
    order <= r <= image.Length0 - order && order <= c <= image.Length1 - order
    && image[r, c] >= threshold && DominatesWindow(image, order, r, c)
  }

  /** One past the last scanned row (column): range(order, dim + 1 - order)
      is empty when the bound falls below order. */
  function ScanEnd(dim: nat, order: nat): nat
  {
    Max(order, dim + 1 - order)
  }

  /** The maxima of row r left of column k, left to right. */
  ghost function RowMaxima(image: array2<real>, order: nat, threshold: real, r: int, k: int): seq<Point>
    reads image
    requires 1 <= order <= k
    decreases k - order
  {
    if k == order then [] else
      RowMaxima(image, order, threshold, r, k - 1)
      + (if IsMaximum(image, order, threshold, r, k - 1) then [Point(r, k - 1)] else [])
  }

  /** The maxima of the scanned rows above row r, in row-major order. */
  ghost function MaximaBelow(image: array2<real>, order: nat, threshold: real, r: int): seq<Point>
    reads image
    requires 1 <= order <= r
    decreases r - order
  {
    if r == order then [] else
      MaximaBelow(image, order, threshold, r - 1)
      + RowMaxima(image, order, threshold, r - 1, ScanEnd(image.Length1, order))
  }

  /** What find_local_maxima returns. */
  ghost function Maxima(image: array2<real>, order: nat, threshold: real): seq<Point>
    reads image
    requires 1 <= order
  {
    MaximaBelow(image, order, threshold, ScanEnd(image.Length0, order))
  }

  /** Row-major order, strictly. */
  predicate Before(p: Point, q: Point)
  {
    p.x < q.x || (p.x == q.x && p.y < q.y)
  }

  ghost predicate RowMajor(s: seq<Point>)
  {
    forall i, j :: 0 <= i < j < |s| ==> Before(s[i], s[j])
  }

  lemma {:induction false} RowMaximaSpec(image: array2<real>, order: nat, threshold: real, r: int, k: int)
    requires 1 <= order <= k
    ensures forall p :: p in RowMaxima(image, order, threshold, r, k) <==>
      p.x == r && p.y < k && IsMaximum(image, order, threshold, p.x, p.y)
    ensures RowMajor(RowMaxima(image, order, threshold, r, k))
    decreases k - order
  {
    if k > order {
      RowMaximaSpec(image, order, threshold, r, k - 1);
    }
    RowMaximaOrder(image, order, threshold, r, k);
  }

  lemma {:induction false} RowMaximaOrder(image: array2<real>, order: nat, threshold: real, r: int, k: int)
    requires 1 <= order <= k
    ensures forall p :: p in RowMaxima(image, order, threshold, r, k) ==> p.x == r && p.y < k
    ensures RowMajor(RowMaxima(image, order, threshold, r, k))
    decreases k - order
  {
    if k > order {
      RowMaximaOrder(image, order, threshold, r, k - 1);
      var prev := RowMaxima(image, order, threshold, r, k - 1);
      forall i | 0 <= i < |prev| ensures prev[i].x == r && prev[i].y < k - 1 {
        assert prev[i] in prev;
      }
    }
  }

  lemma MaximaBelowSpec(image: array2<real>, order: nat, threshold: real, r: int)
    requires 1 <= order <= r
    ensures forall p :: p in MaximaBelow(image, order, threshold, r) <==>
      p.x < r && p.y < ScanEnd(image.Length1, order) && IsMaximum(image, order, threshold, p.x, p.y)
    ensures RowMajor(MaximaBelow(image, order, threshold, r))
  {
    MaximaBelowMembers(image, order, threshold, r);
    MaximaBelowOrder(image, order, threshold, r);
  }

  lemma {:induction false} MaximaBelowMembers(image: array2<real>, order: nat, threshold: real, r: int)
    requires 1 <= order <= r
    ensures forall p :: p in MaximaBelow(image, order, threshold, r) <==>
      p.x < r && p.y < ScanEnd(image.Length1, order) && IsMaximum(image, order, threshold, p.x, p.y)
    decreases r - order
  {
    if r > order {
      var colEnd := ScanEnd(image.Length1, order);
      var prev := MaximaBelow(image, order, threshold, r - 1);
      var row := RowMaxima(image, order, threshold, r - 1, colEnd);
      assert MaximaBelow(image, order, threshold, r) == prev + row;
      forall p: Point
        ensures p in prev + row <==> p.x < r && p.y < colEnd && IsMaximum(image, order, threshold, p.x, p.y)
      {
        MaximaBelowMembers(image, order, threshold, r - 1);
        RowMaximaSpec(image, order, threshold, r - 1, colEnd);
        assert p in prev + row <==> p in prev || p in row;
      }
    }
  }

  lemma {:induction false} MaximaBelowOrder(image: array2<real>, order: nat, threshold: real, r: int)
    requires 1 <= order <= r
    ensures forall p :: p in MaximaBelow(image, order, threshold, r) ==> p.x < r
    ensures RowMajor(MaximaBelow(image, order, threshold, r))
    decreases r - order
  {
    if r > order {
      var colEnd := ScanEnd(image.Length1, order);
      var prev := MaximaBelow(image, order, threshold, r - 1);
      var row := RowMaxima(image, order, threshold, r - 1, colEnd);
      assert MaximaBelow(image, order, threshold, r) == prev + row;
      assert RowMajor(prev + row) && forall p: Point :: p in prev + row ==> p.x <= r - 1 by {
        MaximaBelowOrder(image, order, threshold, r - 1);
        RowMaximaOrder(image, order, threshold, r - 1, colEnd);
        RowMajorConcat(prev, row, r - 1);
      }
    }
  }

  /** The maxima of the rows above r followed by those of row r are in
      row-major order. */
  lemma RowMajorConcat(prev: seq<Point>, row: seq<Point>, r: int)
    requires RowMajor(prev) && RowMajor(row)
    requires forall p :: p in prev ==> p.x < r
    requires forall p :: p in row ==> p.x == r
    ensures RowMajor(prev + row)
    ensures forall p :: p in prev + row ==> p.x <= r
  {
    var s := prev + row;
    forall p | p in s ensures p.x <= r {
      assert p in prev || p in row;
    }
    forall i, j | 0 <= i < j < |s| ensures Before(s[i], s[j]) {
      if j < |prev| {
        assert s[i] == prev[i] && s[j] == prev[j];
      } else if i < |prev| {
        assert s[i] == prev[i] && prev[i] in prev;
        assert s[j] == row[j - |prev|] && row[j - |prev|] in row;
      } else {
        assert s[i] == row[i - |prev|] && s[j] == row[j - |prev|];
      }
    }
  }

  /** find_local_maxima reports exactly the positions with order <= row <=
      dim0 - order and order <= col <= dim1 - order whose entry reaches the
      threshold and is at least every entry of its window clipped to the
      image (so every point of a plateau is reported), in strictly
      row-major order and so without repetition. */
  lemma MaximaSpec(image: array2<real>, order: nat, threshold: real)
    requires 1 <= order
    ensures forall p :: p in Maxima(image, order, threshold) <==>
      IsMaximum(image, order, threshold, p.x, p.y)
    ensures forall p :: p in Maxima(image, order, threshold) ==>
      order <= p.x <= image.Length0 - order && order <= p.y <= image.Length1 - order
      && image[p.x, p.y] >= threshold
    ensures RowMajor(Maxima(image, order, threshold))
  {
    MaximaBelowSpec(image, order, threshold, ScanEnd(image.Length0, order));
  }

  /** find_local_maxima: range(order, dim + 1 - order) over rows and
      columns; a position whose entry reaches the threshold is compared with
      the largest entry of its window (np.amax of the clipped slice). The
      program indexes row dim0 when order is 0, so order >= 1 is required. */
  method FindLocalMaxima(image: array2<real>, order: nat, threshold: real) returns (maxima: seq<Point>)
    requires 1 <= order
    ensures maxima == Maxima(image, order, threshold)
  {
    maxima := [];
    var row := order;
    while row < image.Length0 + 1 - order
      invariant order <= row <= ScanEnd(image.Length0, order)
      invariant maxima == MaximaBelow(image, order, threshold, row)
    {
      var col := order;
      while col < image.Length1 + 1 - order
        invariant order <= col <= ScanEnd(image.Length1, order)
        invariant maxima == MaximaBelow(image, order, threshold, row) + RowMaxima(image, order, threshold, row, col)
      {
        ghost var before := MaximaBelow(image, order, threshold, row) + RowMaxima(image, order, threshold, row, col);
        var isMax := TestPosition(image, order, threshold, row, col);
        if isMax {
          maxima := maxima + [Point(row, col)];
          assert MaximaBelow(image, order, threshold, row) + RowMaxima(image, order, threshold, row, col + 1)
            == before + [Point(row, col)];
        } else {
          assert MaximaBelow(image, order, threshold, row) + RowMaxima(image, order, threshold, row, col + 1)
            == before;
        }
        col := col + 1;
      }
      row := row + 1;
    }
  }

  /** The body of the loop of find_local_maxima at a scanned position. */
  method TestPosition(image: array2<real>, order: nat, threshold: real, row: nat, col: nat) returns (isMax: bool)
    requires 1 <= order && order <= row <= image.Length0 - order && order <= col <= image.Length1 - order
    ensures isMax == IsMaximum(image, order, threshold, row, col)
  {
    isMax := false;
    if image[row, col] >= threshold {
      var maximum := Amax(image, row - order, Min(row + order + 1, image.Length0),
                           col - order, Min(col + order + 1, image.Length1));
      if image[row, col] >= maximum {
        isMax := true;
      }
    }
  }
}
