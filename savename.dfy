/**
  * The name of the file written by `save_ascii` (image-to-ascii.py:105-106):
  * `ascii_{mode}_{width}x{height}_{stem}.txt`, where the stem is the base
  * name of the source path up to its first dot.
  */
module SaveName {
  import opened BrightnessMap

  predicate IsDigit(c: char)
  {
    '0' <= c <= '9'
  }

  function DigitChar(d: nat): (c: char)
    requires d < 10
    ensures IsDigit(c)
  {
    ['0', '1', '2', '3', '4', '5', '6', '7', '8', '9'][d]
  }

  function DigitValue(c: char): (d: nat)
    requires IsDigit(c)
    ensures d < 10 && DigitChar(d) == c
  {
    (c - '0') as nat
  }

  /** Decimal digits of a natural number, as Python's `str` writes them. */
  function NatToDecimal(n: nat): (s: string)
    ensures |s| >= 1
    ensures forall k :: 0 <= k < |s| ==> IsDigit(s[k])
    ensures |s| > 1 ==> s[0] != '0'
  {
    if n < 10 then [DigitChar(n)] else NatToDecimal(n / 10) + [DigitChar(n % 10)]
  }

  /** Python's `str(n)` for an integer: a minus sign before the digits of a negative one. */
  function IntToDecimal(n: int): (s: string)
    ensures |s| >= 1
    ensures '/' !in s && '.' !in s
  {
    if n < 0 then "-" + NatToDecimal(-n) else NatToDecimal(n)
  }

  /** The value of a string of decimal digits. */
  function DecimalValue(s: string): nat
    requires forall k :: 0 <= k < |s| ==> IsDigit(s[k])
  {
    if s == [] then 0 else DecimalValue(s[..|s| - 1]) * 10 + DigitValue(s[|s| - 1])
  }

  /** Reading the digits back gives the number. */
  lemma {:induction false} DecimalRoundTrip(n: nat)
    ensures DecimalValue(NatToDecimal(n)) == n
  {
    var s := NatToDecimal(n);
    if n >= 10 {
      DecimalRoundTrip(n / 10);
      assert s[..|s| - 1] == NatToDecimal(n / 10);
    }
  }

  /** POSIX `os.path.basename`: everything after the last `/`. */
  function Basename(path: string): (name: string)
    ensures '/' !in name
    ensures |name| <= |path| && name == path[|path| - |name|..]
    ensures |name| < |path| ==> path[|path| - |name| - 1] == '/'
  {
    if path == [] then []
    else if path[|path| - 1] == '/' then []
    else Basename(path[..|path| - 1]) + [path[|path| - 1]]
  }

  /** `name.split('.')[0]`: everything before the first `.`. */
  function Stem(name: string): (stem: string)
    ensures '.' !in stem
    ensures |stem| <= |name| && stem == name[..|stem|]
    ensures |stem| < |name| ==> name[|stem|] == '.'
  {
    if name == [] then []
    else if name[0] == '.' then []
    else [name[0]] + Stem(name[1..])
  }

  /**
    * `f"ascii_{mode}_{width}x{height}_{stem}.txt"`. The width and height are
    * the values `image_to_ascii` holds at the time of saving.
    */
  function SaveFileName(mode: Mode, width: int, height: int, source: string): string
  {
    "ascii_" + ModeName(mode) + "_" + IntToDecimal(width) + "x" + IntToDecimal(height) + "_"
      + Stem(Basename(source)) + ".txt"
  }

  /** The base name of `dir/name` is `name` when `name` has no slash. */
  lemma {:induction false} BasenameAfterSlash(dir: string, name: string)
    requires '/' !in name
    ensures Basename(dir + "/" + name) == name
  {
    var path := dir + "/" + name;
    if name == [] {
      assert path[|path| - 1] == '/';
    } else {
      var init := name[..|name| - 1];
      BasenameAfterSlash(dir, init);
      assert path[..|path| - 1] == dir + "/" + init;
      assert init + [name[|name| - 1]] == name;
    }
  }

  /** The stem of `a.rest` is `a` when `a` has no dot. */
  lemma {:induction false} StemBeforeDot(a: string, rest: string)
    requires '.' !in a
    ensures Stem(a + "." + rest) == a
  {
    var name := a + "." + rest;
    if a != [] {
      StemBeforeDot(a[1..], rest);
      assert name[1..] == a[1..] + "." + rest;
      assert [a[0]] + a[1..] == a;
    }
  }

  lemma NoSlashAppend(a: string, b: string)
    requires '/' !in a && '/' !in b
    ensures '/' !in a + b
  {
  }

  /** The saved file never names another directory: it lands in the current one. */
  lemma SaveFileNameHasNoSlash(mode: Mode, width: int, height: int, source: string)
    ensures '/' !in SaveFileName(mode, width, height, source)
  {
    var m, w, h, stem := ModeName(mode), IntToDecimal(width), IntToDecimal(height), Stem(Basename(source));
    assert '/' !in m;
    NoSlashAppend("ascii_", m);
    NoSlashAppend("ascii_" + m, "_");
    NoSlashAppend("ascii_" + m + "_", w);
    NoSlashAppend("ascii_" + m + "_" + w, "x");
    NoSlashAppend("ascii_" + m + "_" + w + "x", h);
    NoSlashAppend("ascii_" + m + "_" + w + "x" + h, "_");
    NoSlashAppend("ascii_" + m + "_" + w + "x" + h + "_", stem);
    NoSlashAppend("ascii_" + m + "_" + w + "x" + h + "_" + stem, ".txt");
  }


}
