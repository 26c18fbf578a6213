/** The numpy reductions the program calls on image slices. */
module NumpyOps {

  /** np.amax of the slice [r0:r1, c0:c1]: the largest entry there. */
  method Amax(image: array2<real>, r0: nat, r1: nat, c0: nat, c1: nat) returns (m: real)
    requires r0 < r1 <= image.Length0 && c0 < c1 <= image.Length1
    ensures exists i, j :: r0 <= i < r1 && c0 <= j < c1 && image[i, j] == m
    ensures forall i, j :: r0 <= i < r1 && c0 <= j < c1 ==> image[i, j] <= m
  {
    m := image[r0, c0];
    ghost var wi, wj := r0, c0;
    for i := r0 to r1
      invariant r0 <= wi < r1 && c0 <= wj < c1 && image[wi, wj] == m
      invariant forall k, j :: r0 <= k < i && c0 <= j < c1 ==> image[k, j] <= m
    {
      for j := c0 to c1
        invariant r0 <= wi < r1 && c0 <= wj < c1 && image[wi, wj] == m
        invariant forall k, l :: r0 <= k < i && c0 <= l < c1 ==> image[k, l] <= m
        invariant forall l :: c0 <= l < j ==> image[i, l] <= m
      {
        if image[i, j] > m {
          m := image[i, j];
          wi, wj := i, j;
        }
      }
    }
  }

  /** np.amin of the slice [r0:r1, c0:c1]: the smallest entry there. */
  method Amin(image: array2<real>, r0: nat, r1: nat, c0: nat, c1: nat) returns (m: real)
    requires r0 < r1 <= image.Length0 && c0 < c1 <= image.Length1
    ensures exists i, j :: r0 <= i < r1 && c0 <= j < c1 && image[i, j] == m
    ensures forall i, j :: r0 <= i < r1 && c0 <= j < c1 ==> m <= image[i, j]
  {
    m := image[r0, c0];
    ghost var wi, wj := r0, c0;
    for i := r0 to r1
      invariant r0 <= wi < r1 && c0 <= wj < c1 && image[wi, wj] == m
      invariant forall k, j :: r0 <= k < i && c0 <= j < c1 ==> m <= image[k, j]
    {
      for j := c0 to c1
        invariant r0 <= wi < r1 && c0 <= wj < c1 && image[wi, wj] == m
        invariant forall k, l :: r0 <= k < i && c0 <= l < c1 ==> m <= image[k, l]
        invariant forall l :: c0 <= l < j ==> m <= image[i, l]
      {
        if image[i, j] < m {
          m := image[i, j];
          wi, wj := i, j;
        }
      }
    }
  }
}
