/**
  * Resolution of the variadic `max_size` positional argument after parsing
  * (image-to-ascii.py:52-57): no value means no bound, one value a square
  * bound, two or more values a width-by-height bound from the first two.
  */
module Args {

  /** The resolved `(width, height)` pair: `(None, None)` or two integers. */
  datatype Bound = Unbounded | Box(width: int, height: int)

  /**
    * There is a bound exactly when at least one value is given; its width is
    * the first value, its height the second when there is one and the first
    * otherwise.
    */
  function ResolveMaxSize(maxSize: seq<int>): (b: Bound)
    ensures b == Unbounded <==> |maxSize| == 0
    ensures b.Box? ==> b.width == maxSize[0]
    ensures b.Box? ==> b.height == if |maxSize| >= 2 then maxSize[1] else maxSize[0]
  {
    if |maxSize| == 0 then Unbounded
    else if |maxSize| == 1 then Box(maxSize[0], maxSize[0])
    else Box(maxSize[0], maxSize[1])
  }

  /** Values after the second are ignored. */
  lemma ExtraValuesIgnored(maxSize: seq<int>, extra: seq<int>)
    requires |maxSize| >= 2
    ensures ResolveMaxSize(maxSize + extra) == ResolveMaxSize(maxSize)
  {
  }

  /** A single value `n` means the same as the pair `n n`. */
  lemma SingleValueIsSquare(n: int)
    ensures ResolveMaxSize([n]) == ResolveMaxSize([n, n])
  {
  }
}
