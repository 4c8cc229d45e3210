/**
  * Quantisation of a brightness in [0,255] to one character of the gradient
  * key: `ascii_key[round((brightness / 255) * (len(ascii_key) - 1))]`
  * (image-to-ascii.py:86). Python's `round` on a float rounds half to even.
  */
module Quantise {

  /** Python's `round(x)`: the nearest integer, ties going to the even neighbour. */
  function RoundHalfEven(x: real): (n: int)
    ensures -0.5 <= n as real - x <= 0.5
    ensures (n as real - x == 0.5 || n as real - x == -0.5) ==> n % 2 == 0
  {
    var f := x.Floor;
    var d := x - f as real;
    if d < 0.5 then f
    else if d > 0.5 then f + 1
    else if f % 2 == 0 then f
    else f + 1
  }

  /** The two properties of `RoundHalfEven` determine it: any integer that has them is it. */
  lemma RoundHalfEvenUnique(x: real, n: int)
    requires -0.5 <= n as real - x <= 0.5
    requires (n as real - x == 0.5 || n as real - x == -0.5) ==> n % 2 == 0
    ensures n == RoundHalfEven(x)
  {
  }

  /** An integer rounds to itself. */
  lemma RoundHalfEvenOfInt(k: int)
    ensures RoundHalfEven(k as real) == k
  {
    RoundHalfEvenUnique(k as real, k);
  }

  /** Rounding is monotone. */
  lemma RoundHalfEvenMonotone(x: real, y: real)
    requires x <= y
    ensures RoundHalfEven(x) <= RoundHalfEven(y)
  {
  }

  /** The position in the key before rounding: `(brightness / 255) * (len(key) - 1)`. */
  function Scaled(b: real, keyLen: int): (x: real)
    ensures keyLen >= 1 && 0.0 <= b <= 255.0 ==> 0.0 <= x <= (keyLen - 1) as real
  {
    ScaleBounds(b / 255.0, (keyLen - 1) as real);
    (b / 255.0) * (keyLen - 1) as real
  }

  lemma ScaleBounds(t: real, c: real)
    ensures 0.0 <= t <= 1.0 && c >= 0.0 ==> 0.0 <= t * c <= c
  {
  }

  lemma ScaleMonotone(s: real, t: real, c: real)
    requires s <= t && c >= 0.0
    ensures s * c <= t * c
  {
    assert t * c - s * c == (t - s) * c;
  }

  /** The key index a brightness selects: `round((b / 255) * (len(key) - 1))`. */
  function KeyIndex(b: real, keyLen: int): int
  {
    RoundHalfEven(Scaled(b, keyLen))
  }

  /** For a non-empty key and a brightness in [0,255] the index is in bounds. */
  lemma KeyIndexInRange(b: real, keyLen: int)
    requires keyLen >= 1 && 0.0 <= b <= 255.0
    ensures 0 <= KeyIndex(b, keyLen) < keyLen
  {
    var x := Scaled(b, keyLen);
    RoundHalfEvenMonotone(0.0, x);
    RoundHalfEvenMonotone(x, (keyLen - 1) as real);
    RoundHalfEvenOfInt(0);
    RoundHalfEvenOfInt(keyLen - 1);
  }

  /** Brightness 0 selects the first character and 255 the last. */
  lemma KeyIndexEndpoints(keyLen: int)
    requires keyLen >= 1
    ensures KeyIndex(0.0, keyLen) == 0
    ensures KeyIndex(255.0, keyLen) == keyLen - 1
  {
    assert Scaled(0.0, keyLen) == 0 as real;
    assert Scaled(255.0, keyLen) == (keyLen - 1) as real;
    RoundHalfEvenOfInt(0);
    RoundHalfEvenOfInt(keyLen - 1);
  }

  /** A brighter pixel never selects an earlier character of the key. */
  lemma KeyIndexMonotone(b1: real, b2: real, keyLen: int)
    requires keyLen >= 1 && b1 <= b2
    ensures KeyIndex(b1, keyLen) <= KeyIndex(b2, keyLen)
  {
    var c := (keyLen - 1) as real;
    var s1, s2 := b1 / 255.0, b2 / 255.0;
    assert s1 <= s2;
    ScaleMonotone(s1, s2, c);
    assert Scaled(b1, keyLen) == s1 * c;
    assert Scaled(b2, keyLen) == s2 * c;
    RoundHalfEvenMonotone(Scaled(b1, keyLen), Scaled(b2, keyLen));
  }

  /** The character one brightness maps to. */
  function QuantiseCell(b: real, key: string): (c: char)
    requires |key| >= 1 && 0.0 <= b <= 255.0
    ensures c in key
  {
    KeyIndexInRange(b, |key|);
    key[KeyIndex(b, |key|)]
  }

  /** Every cell of a brightness grid lies in [0,255]. */
  predicate InRange(grid: seq<seq<real>>)
  {
    forall i, j :: 0 <= i < |grid| && 0 <= j < |grid[i]| ==> 0.0 <= grid[i][j] <= 255.0
  }

  /** `[[key[...] for brightness in row] for row in brightness_matrix]` */
  function QuantiseGrid(grid: seq<seq<real>>, key: string): (chars: seq<seq<char>>)
    requires |key| >= 1 && InRange(grid)
    ensures |chars| == |grid|
    ensures forall i :: 0 <= i < |grid| ==> |chars[i]| == |grid[i]|
  {
    seq(|grid|, i requires 0 <= i < |grid| =>
      seq(|grid[i]|, j requires 0 <= j < |grid[i]| => QuantiseCell(grid[i][j], key)))
  }

  /** A one-character key yields that character whatever the brightness. */
  lemma SingleCharKey(b: real, c: char)
    requires 0.0 <= b <= 255.0
    ensures QuantiseCell(b, [c]) == c
  {
    KeyIndexInRange(b, 1);
  }

  /** Black selects the key's first character, full white its last. */
  lemma QuantiseEndpoints(key: string)
    requires |key| >= 1
    ensures QuantiseCell(0.0, key) == key[0]
    ensures QuantiseCell(255.0, key) == key[|key| - 1]
  {
    KeyIndexEndpoints(|key|);
  }
}
