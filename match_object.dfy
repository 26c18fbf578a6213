/** The array loops of matchObject.py: thresholding an image to 0/1 in
    place (binarize) and padding a template-matching score map back to the
    size of the image it was computed on (match_template_full). The score
    map itself (skimage's match_template) is an input. */
module MatchObject {

  /** The value binarize writes for an entry v. */
  function BinaryValue(v: real, threshold: real): (b: real)
    ensures b == 0.0 || b == 1.0
    ensures b == 1.0 <==> v > threshold
  {
    if v > threshold then 1.0 else 0.0
  }

  /** With a threshold in [0, 1), binarizing a binarized image changes
      nothing. */
  lemma BinaryIdempotent(v: real, threshold: real)
    requires 0.0 <= threshold < 1.0
    ensures BinaryValue(BinaryValue(v, threshold), threshold) == BinaryValue(v, threshold)
  {
  }

  /** binarize: every entry becomes 1 when above the threshold and 0
      otherwise; the image is changed in place and returned. */
  method Binarize(image: array2<real>, threshold: real) returns (result: array2<real>)
    modifies image
    ensures result == image
    ensures forall i, j :: 0 <= i < image.Length0 && 0 <= j < image.Length1 ==>
      image[i, j] == BinaryValue(old(image[i, j]), threshold)
  {
    for i := 0 to image.Length0
      invariant forall k, j :: 0 <= k < i && 0 <= j < image.Length1 ==>
        image[k, j] == BinaryValue(old(image[k, j]), threshold)
      invariant forall k, j :: i <= k < image.Length0 && 0 <= j < image.Length1 ==>
        image[k, j] == old(image[k, j])
    {
      for j := 0 to image.Length1
        invariant forall k, l :: 0 <= k < i && 0 <= l < image.Length1 ==>
          image[k, l] == BinaryValue(old(image[k, l]), threshold)
        invariant forall l :: 0 <= l < j ==> image[i, l] == BinaryValue(old(image[i, l]), threshold)
        invariant forall k, l :: i <= k < image.Length0 && 0 <= l < image.Length1 && (k > i || l >= j) ==>
          image[k, l] == old(image[k, l])
      {
        if image[i, j] > threshold {
          image[i, j] := 1.0;
        } else {
          image[i, j] := 0.0;
        }
      }
    }
    result := image;
  }

  /** Whether cell (i, j) of the padded map lies in the window that holds
      the score map res, shifted by (b0, b1). */
  predicate InWindow(i: int, j: int, b0: int, b1: int, rows: int, cols: int)
  {
    b0 <= i < b0 + rows && b1 <= j < b1 + cols
  }

  /** match_template_full for an image of imgRows x imgCols, a template of
      objRows x objCols and the score map res: a new zero map of the image's
      size whose window at the border (floor(objRows / 2), floor(objCols / 2))
      holds res. Writing past the image's edge is an error in the program,
      so the shifted map must fit. */
  method MatchTemplateFull(imgRows: nat, imgCols: nat, objRows: nat, objCols: nat, res: array2<real>)
    returns (grid: array2<real>)
    requires res.Length0 + objRows / 2 <= imgRows && res.Length1 + objCols / 2 <= imgCols
    ensures fresh(grid)
    ensures grid.Length0 == imgRows && grid.Length1 == imgCols
    ensures forall i, j :: 0 <= i < imgRows && 0 <= j < imgCols ==>
      grid[i, j] == if InWindow(i, j, objRows / 2, objCols / 2, res.Length0, res.Length1)
                    then res[i - objRows / 2, j - objCols / 2] else 0.0
  {
    grid := new real[imgRows, imgCols]((i, j) => 0.0);
    var b0, b1 := objRows / 2, objCols / 2;
    for row := 0 to res.Length0
      invariant forall i, j :: 0 <= i < imgRows && 0 <= j < imgCols ==>
        grid[i, j] == if InWindow(i, j, b0, b1, row, res.Length1) then res[i - b0, j - b1] else 0.0
    {
      for col := 0 to res.Length1
        invariant forall i, j :: 0 <= i < imgRows && 0 <= j < imgCols ==>
          grid[i, j] == if InWindow(i, j, b0, b1, row, res.Length1) || (i == row + b0 && b1 <= j < b1 + col)
                        then res[i - b0, j - b1] else 0.0
      {
        grid[row + b0, col + b1] := res[row, col];
      }
    }
  }
}
