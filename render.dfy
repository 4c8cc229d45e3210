/**
  * Rendering of the character grid (image-to-ascii.py:89): every character is
  * repeated `repeat` times, the characters of a row are concatenated and the
  * rows are joined with a newline.
  */
module Renderer {

  /** Python's `char * n`: `n` copies of the character, none when `n <= 0`. */
  function Repeat(c: char, n: int): (s: string)
    ensures |s| == if n <= 0 then 0 else n
    ensures forall k :: 0 <= k < |s| ==> s[k] == c
  {
    if n <= 0 then [] else seq(n, _ => c)
  }

  /** `''.join([char * repeat for char in row])` */
  function RenderRow(row: string, repeat: int): (line: string)
    ensures repeat <= 0 ==> line == []
    ensures repeat > 0 ==> |line| == |row| * repeat
  {
    if row == [] then [] else Repeat(row[0], repeat) + RenderRow(row[1..], repeat)
  }

  /** Python's `'\n'.join(lines)`. */
  function Join(lines: seq<string>): string
  {
    if |lines| == 0 then []
    else if |lines| == 1 then lines[0]
    else lines[0] + "\n" + Join(lines[1..])
  }

  /** Python's `s.split('\n')`, the inverse of `Join` on newline-free lines. */
  function SplitLines(s: string): (lines: seq<string>)
    ensures |lines| >= 1
  {
    if s == [] then [[]]
    else if s[0] == '\n' then [[]] + SplitLines(s[1..])
    else
      var rest := SplitLines(s[1..]);
      [[s[0]] + rest[0]] + rest[1..]
  }

  /** Number of occurrences of a character. */
  function Count(s: string, c: char): nat
  {
    if s == [] then 0 else (if s[0] == c then 1 else 0) + Count(s[1..], c)
  }

  /** `'\n'.join([RenderRow(row, repeat) for row in ascii_matrix])` */
  function Render(matrix: seq<string>, repeat: int): string
  {
    Join(RenderedRows(matrix, repeat))
  }

  /** No line contains a newline. */
  predicate NewlineFree(lines: seq<string>)
  {
    forall i :: 0 <= i < |lines| ==> '\n' !in lines[i]
  }

  /** Character `t` of the `i`-th block of a rendered row is `row[i]`. */
  lemma {:induction false} RenderRowBlock(row: string, repeat: int, i: nat, t: nat)
    requires repeat > 0 && i < |row| && t < repeat
    ensures i * repeat + t < |RenderRow(row, repeat)|
    ensures RenderRow(row, repeat)[i * repeat + t] == row[i]
  {
    var line := RenderRow(row, repeat);
    assert line == Repeat(row[0], repeat) + RenderRow(row[1..], repeat);
    if i > 0 {
      RenderRowBlock(row[1..], repeat, i - 1, t);
      assert i * repeat + t == repeat + ((i - 1) * repeat + t);
    }
  }

  lemma DivBelow(j: nat, k: int, n: nat)
    requires k > 0 && j < n * k
    ensures j / k < n
  {
  }

  /** Character `j` of a rendered row is `row[j / repeat]`. */
  lemma RenderRowAt(row: string, repeat: int, j: nat)
    requires repeat > 0 && j < |row| * repeat
    ensures j / repeat < |row| && RenderRow(row, repeat)[j] == row[j / repeat]
  {
    var q, t := j / repeat, j % repeat;
    assert j == q * repeat + t;
    DivBelow(j, repeat, |row|);
    RenderRowBlock(row, repeat, q, t);
  }

  /** A newline-free string is a single line. */
  lemma {:induction false} SplitSingle(a: string)
    requires '\n' !in a
    ensures SplitLines(a) == [a]
  {
    if a != [] {
      SplitSingle(a[1..]);
      assert a[0] != '\n';
      assert [a[0]] + a[1..] == a;
    }
  }

  /** Splitting `a + "\n" + s` for a newline-free `a` yields `a`, then the lines of `s`. */
  lemma {:induction false} SplitAfterLine(a: string, s: string)
    requires '\n' !in a
    ensures SplitLines(a + "\n" + s) == [a] + SplitLines(s)
  {
    if a == [] {
      assert a + "\n" + s == ['\n'] + s;
      assert (['\n'] + s)[1..] == s;
    } else {
      SplitAfterLine(a[1..], s);
      var x := a + "\n" + s;
      assert x[0] == a[0] && x[0] != '\n';
      assert x[1..] == a[1..] + "\n" + s;
      assert [a[0]] + a[1..] == a;
    }
  }

  /** Splitting a join of newline-free lines gives the lines back. */
  lemma {:induction false} SplitJoin(lines: seq<string>)
    requires |lines| >= 1 && NewlineFree(lines)
    ensures SplitLines(Join(lines)) == lines
  {
    if |lines| == 1 {
      SplitSingle(lines[0]);
    } else {
      SplitJoin(lines[1..]);
      SplitAfterLine(lines[0], Join(lines[1..]));
    }
  }

  lemma {:induction false} CountAppend(a: string, b: string, c: char)
    ensures Count(a + b, c) == Count(a, c) + Count(b, c)
  {
    if a != [] {
      CountAppend(a[1..], b, c);
      assert a + b != [] && (a + b)[0] == a[0];
      assert (a + b)[1..] == a[1..] + b;
    } else {
      assert a + b == b;
    }
  }

  lemma {:induction false} CountAbsent(a: string, c: char)
    requires c !in a
    ensures Count(a, c) == 0
  {
    if a != [] {
      CountAbsent(a[1..], c);
    }
  }

  /** Joining `n >= 1` newline-free lines puts exactly `n - 1` newlines between them. */
  lemma {:induction false} JoinNewlines(lines: seq<string>)
    requires |lines| >= 1 && NewlineFree(lines)
    ensures Count(Join(lines), '\n') == |lines| - 1
  {
    CountAbsent(lines[0], '\n');
    if |lines| > 1 {
      JoinNewlines(lines[1..]);
      CountAppend(lines[0] + "\n", Join(lines[1..]), '\n');
      CountAppend(lines[0], "\n", '\n');
    }
  }

  /** Every character of a rendered row comes from the row. */
  lemma {:induction false} RenderRowChars(row: string, repeat: int)
    ensures forall k :: 0 <= k < |RenderRow(row, repeat)| ==> RenderRow(row, repeat)[k] in row
  {
    if row != [] {
      RenderRowChars(row[1..], repeat);
      var line := RenderRow(row, repeat);
      var head := Repeat(row[0], repeat);
      forall k | 0 <= k < |line|
        ensures line[k] in row
      {
        if k < |head| {
          assert line[k] == row[0];
        } else {
          assert line[k] == RenderRow(row[1..], repeat)[k - |head|];
        }
      }
    }
  }

  lemma RenderRowsNewlineFree(matrix: seq<string>, repeat: int)
    ensures NewlineFree(matrix) ==> forall i :: 0 <= i < |matrix| ==> '\n' !in RenderRow(matrix[i], repeat)
  {
    forall i | 0 <= i < |matrix|
      ensures '\n' !in matrix[i] ==> '\n' !in RenderRow(matrix[i], repeat)
    {
      RenderRowChars(matrix[i], repeat);
    }
  }

  /** The rendered rows, before they are joined. */
  function RenderedRows(matrix: seq<string>, repeat: int): (lines: seq<string>)
    ensures |lines| == |matrix|
    ensures NewlineFree(matrix) ==> NewlineFree(lines)
  {
    RenderRowsNewlineFree(matrix, repeat);
    seq(|matrix|, i requires 0 <= i < |matrix| => RenderRow(matrix[i], repeat))
  }

  /**
    * For `repeat >= 1` and a non-empty, newline-free grid, the rendered text
    * has one line per row, separated by `rows - 1` newlines, and line i is
    * the rendering of row i.
    */
  lemma RenderLines(matrix: seq<string>, repeat: int)
    requires |matrix| >= 1 && NewlineFree(matrix)
    ensures SplitLines(Render(matrix, repeat)) == RenderedRows(matrix, repeat)
    ensures |SplitLines(Render(matrix, repeat))| == |matrix|
    ensures Count(Render(matrix, repeat), '\n') == |matrix| - 1
  {
    var lines := RenderedRows(matrix, repeat);
    assert Render(matrix, repeat) == Join(lines);
    SplitJoin(lines);
    JoinNewlines(lines);
  }

  /**
    * Line i of the rendered text has `len(row i) * repeat` characters, and
    * its character j is `matrix[i][j / repeat]`.
    */
  lemma RenderCell(matrix: seq<string>, repeat: int, i: nat, j: nat)
    requires repeat >= 1 && |matrix| >= 1 && NewlineFree(matrix) && i < |matrix|
    requires j < |matrix[i]| * repeat
    ensures i < |SplitLines(Render(matrix, repeat))|
    ensures |SplitLines(Render(matrix, repeat))[i]| == |matrix[i]| * repeat
    ensures j / repeat < |matrix[i]| && SplitLines(Render(matrix, repeat))[i][j] == matrix[i][j / repeat]
  {
    RenderLines(matrix, repeat);
    RenderRowAt(matrix[i], repeat, j);
  }

  /** Joining only empty lines leaves just the separators. */
  lemma {:induction false} JoinEmptyLines(lines: seq<string>)
    requires |lines| >= 1
    requires forall i :: 0 <= i < |lines| ==> lines[i] == []
    ensures Join(lines) == Repeat('\n', |lines| - 1)
  {
    if |lines| > 1 {
      JoinEmptyLines(lines[1..]);
    }
  }

  /** A repeat of zero or less renders every row empty: only the newlines remain. */
  lemma RenderNonPositiveRepeat(matrix: seq<string>, repeat: int)
    requires repeat <= 0 && |matrix| >= 1
    ensures Render(matrix, repeat) == Repeat('\n', |matrix| - 1)
  {
    JoinEmptyLines(RenderedRows(matrix, repeat));
  }

  /** Sample renderings: one row with repeat 2, and two rows with repeat 1. */
  lemma RenderSamples()
    ensures Render(["AB"], 1) == "AB"
    ensures Render(["AB"], 2) == "AABB"
    ensures Render(["A", "B"], 1) == "A\nB"
    ensures Render([], 3) == ""
  {
    assert Repeat('A', 1) == "A" && Repeat('B', 1) == "B";
    assert RenderRow("AB", 1) == "A" + RenderRow("B", 1);
    assert RenderRow("B", 1) == "B" + RenderRow("", 1);
    assert RenderRow("AB", 2) == "AA" + RenderRow("B", 2);
    assert RenderRow("B", 2) == "BB" + RenderRow("", 2);
    assert Repeat('A', 1) == "A" && Repeat('B', 1) == "B";
    assert RenderRow("A", 1) == "A" + RenderRow("", 1);
    assert RenderRow("B", 1) == "B" + RenderRow("", 1);
    var rows := RenderedRows(["A", "B"], 1);
    assert RenderRow("", 1) == [];
    assert RenderRow("A", 1) == "A" && RenderRow("B", 1) == "B";
    assert rows[0] == "A" && rows[1] == "B";
    assert rows == ["A", "B"];
    assert Join(["A", "B"]) == "A" + "\n" + Join(["B"]);
  }
}
