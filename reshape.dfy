/**
  * Reshape of the flat brightness list into `height` rows of `width` cells
  * (image-to-ascii.py:83), with Python's clamping slice semantics.
  */
module Grid {

  /** Python's `s[lo:hi]` for non-negative bounds: both ends are clamped to `|s|`. */
  function Slice<T>(s: seq<T>, lo: nat, hi: nat): (r: seq<T>)
    ensures |r| <= |s|
    ensures lo <= hi <= |s| ==> r == s[lo..hi]
  {
    var a := if lo <= |s| then lo else |s|;
    var b := if hi <= |s| then hi else |s|;
    if a <= b then s[a..b] else []
  }

  /** `flat[i*width:(i+1)*width]`: the `i`-th run of `width` cells. */
  function Row<T>(flat: seq<T>, width: nat, i: nat): (row: seq<T>)
    ensures |row| <= width
  {
    Slice(flat, i * width, (i + 1) * width)
  }

  /** `[flat[i*width:(i+1)*width] for i in range(height)]` */
  function Reshape<T>(flat: seq<T>, width: nat, height: nat): (rows: seq<seq<T>>)
    ensures |rows| == height
  {
    seq(height, i requires 0 <= i < height => Row(flat, width, i))
  }

  /** Every cell of a reshape, full or not, is a cell of the flat list. */
  lemma ReshapeElements<T>(flat: seq<T>, width: nat, height: nat)
    ensures forall i, k :: 0 <= i < height && 0 <= k < |Reshape(flat, width, height)[i]| ==>
              Reshape(flat, width, height)[i][k] in flat
  {
    forall i, k | 0 <= i < height && 0 <= k < |Reshape(flat, width, height)[i]|
      ensures Reshape(flat, width, height)[i][k] in flat
    {
      var lo, hi := i * width, (i + 1) * width;
      var a := if lo <= |flat| then lo else |flat|;
      var b := if hi <= |flat| then hi else |flat|;
      assert Row(flat, width, i) == flat[a..b];
      assert flat[a..b][k] == flat[a + k];
    }
  }

  /** Row-major concatenation of a grid, the inverse of `Reshape`. */
  function Flatten<T>(rows: seq<seq<T>>): seq<T>
  {
    if rows == [] then [] else rows[0] + Flatten(rows[1..])
  }

  /** A grid whose every row has exactly `width` cells. */
  predicate Rectangular<T>(rows: seq<seq<T>>, width: nat)
  {
    forall i :: 0 <= i < |rows| ==> |rows[i]| == width
  }

  /** `a <= b` implies `a * c <= b * c` for naturals. */
  lemma {:induction false} MulMonotone(a: nat, b: nat, c: nat)
    requires a <= b
    ensures a * c <= b * c
  {
    if c > 0 {
      MulMonotone(a, b, c - 1);
      assert a * c == a * (c - 1) + a;
      assert b * c == b * (c - 1) + b;
    }
  }

  lemma MulStep(i: nat, width: nat, height: nat)
    requires i < height
    ensures (i + 1) * width <= width * height
    ensures i * width + width == (i + 1) * width
  {
    MulMonotone(i + 1, height, width);
    assert height * width == width * height;
  }

  /** Row `i` of a full reshape is the `i`-th run of `width` cells of the flat list. */
  lemma ReshapeRow<T>(flat: seq<T>, width: nat, height: nat, i: nat)
    requires |flat| == width * height && i < height
    ensures i * width + width <= |flat|
    ensures Reshape(flat, width, height)[i] == flat[i * width..i * width + width]
  {
    MulStep(i, width, height);
  }

  /** Cell (i, j) of a full reshape is flat cell `i * width + j`. */
  lemma ReshapeCell<T>(flat: seq<T>, width: nat, height: nat, i: nat, j: nat)
    requires |flat| == width * height && i < height && j < width
    ensures i * width + j < |flat| && Reshape(flat, width, height)[i][j] == flat[i * width + j]
  {
    ReshapeRow(flat, width, height, i);
  }

  /**
    * On an input of exactly `width * height` cells, `Reshape` yields `height`
    * rows of `width` cells each, and row i is the i-th run of `width` cells of
    * the flat list.
    */
  lemma ReshapeRows<T>(flat: seq<T>, width: nat, height: nat)
    requires |flat| == width * height
    ensures Rectangular(Reshape(flat, width, height), width)
    ensures forall i :: 0 <= i < height ==>
              i * width + width <= |flat| && Reshape(flat, width, height)[i] == flat[i * width..i * width + width]
  {
    forall i | 0 <= i < height
      ensures i * width + width <= |flat| && Reshape(flat, width, height)[i] == flat[i * width..i * width + width]
    {
      ReshapeRow(flat, width, height, i);
    }
  }

  /** Dropping the first row of a reshape is reshaping the rest of the list. */
  lemma ReshapeTail<T>(flat: seq<T>, width: nat, height: nat)
    requires height > 0 && |flat| == width * height
    ensures width <= |flat|
    ensures Reshape(flat, width, height)[0] == flat[..width]
    ensures |flat[width..]| == width * (height - 1)
    ensures Reshape(flat, width, height)[1..] == Reshape(flat[width..], width, height - 1)
  {
    ReshapeRow(flat, width, height, 0);
    assert width * height == width + width * (height - 1);
    var rest := flat[width..];
    forall i | 0 <= i < height - 1
      ensures Reshape(flat, width, height)[1..][i] == Reshape(rest, width, height - 1)[i]
    {
      ReshapeShift(flat, width, height, i);
    }
  }

  lemma ReshapeShift<T>(flat: seq<T>, width: nat, height: nat, i: nat)
    requires |flat| == width * height && i + 1 < height
    ensures width <= |flat| && |flat[width..]| == width * (height - 1)
    ensures Reshape(flat, width, height)[i + 1] == Reshape(flat[width..], width, height - 1)[i]
  {
    assert width * height == width + width * (height - 1);
    ReshapeRow(flat, width, height, i + 1);
    ReshapeRow(flat[width..], width, height - 1, i);
    assert (i + 1) * width == i * width + width;
  }

  /** Concatenating the reshaped rows gives back the flat list: pixel order is row-major. */
  lemma {:induction false} FlattenReshape<T>(flat: seq<T>, width: nat, height: nat)
    requires |flat| == width * height
    ensures Flatten(Reshape(flat, width, height)) == flat
  {
    if height == 0 {
      assert |flat| == 0;
    } else {
      ReshapeTail(flat, width, height);
      FlattenReshape(flat[width..], width, height - 1);
      assert flat == flat[..width] + flat[width..];
    }
  }

  /** A rectangular grid has `width * rows` cells once flattened. */
  lemma {:induction false} FlattenLength<T>(rows: seq<seq<T>>, width: nat)
    requires Rectangular(rows, width)
    ensures |Flatten(rows)| == width * |rows|
  {
    if rows != [] {
      FlattenLength(rows[1..], width);
      assert width * |rows| == width + width * (|rows| - 1);
    }
  }

  /** Reshaping a flattened rectangular grid gives back the grid. */
  lemma {:induction false} ReshapeFlatten<T>(rows: seq<seq<T>>, width: nat)
    requires Rectangular(rows, width)
    ensures Reshape(Flatten(rows), width, |rows|) == rows
  {
    if rows != [] {
      var flat := Flatten(rows);
      FlattenLength(rows, width);
      ReshapeTail(flat, width, |rows|);
      ReshapeFlatten(rows[1..], width);
      assert flat[..width] == rows[0];
      assert flat[width..] == Flatten(rows[1..]);
      var r := Reshape(flat, width, |rows|);
      assert r == [r[0]] + r[1..];
    }
  }
}
