/**
 * The pixel-art glyph parser (`PixelArt`): the glyph text is trimmed, split on line feeds, blank
 * lines are dropped, and every character of a kept line becomes one square cell that is filled
 * exactly when the character is a full block (U+2588).
 *
 * Strings are sequences of Unicode code points; `line.split("")` works on UTF-16 code units, which
 * differ from code points only for characters outside the Basic Multilingual Plane.
 */
module PixelArt {

  const FullBlock: char := '█'
  const LineFeed: char := '\n'
  /** The `size` prop's default. */
  const DefaultSize: real := 8.0

  /** The characters `String.prototype.trim` removes: white space and line terminators. */
  predicate IsWhitespace(c: char)
  {
    || c == ' ' || c == '\t' || c == '\n' || c == '\r' || c == '\U{000B}' || c == '\U{000C}'
    || c == '\U{00A0}' || c == '\U{FEFF}' || c == '\U{1680}' || ('\U{2000}' <= c <= '\U{200A}')
    || c == '\U{2028}' || c == '\U{2029}' || c == '\U{202F}' || c == '\U{205F}' || c == '\U{3000}'
  }

  predicate AllWhitespace(s: string)
  {
    forall i :: 0 <= i < |s| ==> IsWhitespace(s[i])
  }

  /** Leading white space removed. */
  function TrimStart(s: string): (r: string)
    ensures |r| <= |s|
  {
    if s != [] && IsWhitespace(s[0]) then TrimStart(s[1..]) else s
  }

  /** Trailing white space removed. */
  function TrimEnd(s: string): (r: string)
    ensures |r| <= |s|
  {
    if s != [] && IsWhitespace(s[|s| - 1]) then TrimEnd(s[..|s| - 1]) else s
  }

  /** `TrimStart` keeps a suffix: what it drops is white space, what it keeps starts with none. */
  lemma {:induction false} TrimStartDropsWhitespace(s: string)
    ensures TrimStart(s) == s[|s| - |TrimStart(s)|..]
    ensures AllWhitespace(s[..|s| - |TrimStart(s)|])
    ensures TrimStart(s) == [] || !IsWhitespace(TrimStart(s)[0])
  {
    if s != [] && IsWhitespace(s[0]) {
      TrimStartDropsWhitespace(s[1..]);
      var i := |s| - |TrimStart(s)|;
      assert s[1..][..i - 1] == s[1..i];
      assert s[1..][i - 1..] == s[i..];
    }
  }

  /** `TrimEnd` keeps a prefix: what it drops is white space, what it keeps ends with none. */
  lemma {:induction false} TrimEndDropsWhitespace(s: string)
    ensures TrimEnd(s) == s[..|TrimEnd(s)|]
    ensures AllWhitespace(s[|TrimEnd(s)|..])
    ensures TrimEnd(s) == [] || !IsWhitespace(TrimEnd(s)[|TrimEnd(s)| - 1])
  {
    if s != [] && IsWhitespace(s[|s| - 1]) {
      var u := s[..|s| - 1];
      TrimEndDropsWhitespace(u);
      var j := |TrimEnd(s)|;
      assert u[..j] == s[..j];
      assert s[j..] == u[j..] + [s[|s| - 1]];
    }
  }

  /** `s.trim()` */
  function Trim(s: string): string
  {
    TrimEnd(TrimStart(s))
  }

  /**
   * A trimmed string is a slice of the original with only white space cut off on either side:
   * the leading white space `TrimStart` dropped and the trailing white space after it.
   */
  lemma TrimIsInnerSlice(s: string)
    ensures var i := |s| - |TrimStart(s)|;
            && i + |Trim(s)| <= |s|
            && Trim(s) == s[i..i + |Trim(s)|]
            && AllWhitespace(s[..i])
            && AllWhitespace(s[i + |Trim(s)|..])
  {
    var t := TrimStart(s);
    TrimStartDropsWhitespace(s);
    TrimEndDropsWhitespace(t);
    var i := |s| - |t|;
    var j := i + |TrimEnd(t)|;
    assert s[j..] == t[|TrimEnd(t)|..];
  }

  /** A trimmed string neither starts nor ends with white space. */
  lemma TrimHasNoOuterWhitespace(s: string)
    ensures Trim(s) == [] || (!IsWhitespace(Trim(s)[0]) && !IsWhitespace(Trim(s)[|Trim(s)| - 1]))
  {
    var t := TrimStart(s);
    TrimStartDropsWhitespace(s);
    TrimEndDropsWhitespace(t);
    if Trim(s) != [] {
      assert TrimEnd(t)[0] == t[0];
    }
  }

  /** A string trims to nothing exactly when it is all white space. */
  lemma TrimEmptyIffWhitespace(s: string)
    ensures Trim(s) == [] <==> AllWhitespace(s)
  {
    var t := TrimStart(s);
    TrimStartDropsWhitespace(s);
    TrimEndDropsWhitespace(t);
    var i := |s| - |t|;
    if Trim(s) == [] {
      assert t[|TrimEnd(t)|..] == t;
      assert s[..i] == s;
    } else {
      assert Trim(s)[0] == t[0] == s[i];
    }
  }

  /** `s.split("\n")`: the pieces between line feeds, always at least one. */
  function SplitLines(s: string): (lines: seq<string>)
    ensures |lines| >= 1
  {
    if s == [] then [""]
    else
      var rest := SplitLines(s[1..]);
      if s[0] == LineFeed then [""] + rest
      else [[s[0]] + rest[0]] + rest[1..]
  }

  /** Text without a line feed is a single line. */
  lemma {:induction false} SplitLinesWithoutLineFeed(s: string)
    requires LineFeed !in s
    ensures SplitLines(s) == [s]
  {
    if s != [] {
      assert s == [s[0]] + s[1..];
      SplitLinesWithoutLineFeed(s[1..]);
    }
  }

  /** `lines.join("\n")` */
  function JoinLines(lines: seq<string>): string
    requires |lines| >= 1
  {
    if |lines| == 1 then lines[0] else lines[0] + [LineFeed] + JoinLines(lines[1..])
  }

  /** Splitting and joining again gives back the text, and no piece holds a line feed. */
  lemma {:induction false} SplitLinesRoundTrip(s: string)
    ensures JoinLines(SplitLines(s)) == s
    ensures forall k :: 0 <= k < |SplitLines(s)| ==> LineFeed !in SplitLines(s)[k]
  {
    if s != [] {
      var rest := SplitLines(s[1..]);
      SplitLinesRoundTrip(s[1..]);
      if s[0] == LineFeed {
        assert SplitLines(s) == [""] + rest;
        assert SplitLines(s)[1..] == rest;
      } else {
        var lines := SplitLines(s);
        assert lines[0] == [s[0]] + rest[0];
        if |rest| == 1 {
          assert lines == [[s[0]] + rest[0]];
        } else {
          assert lines[1..] == rest[1..];
          assert JoinLines(rest) == rest[0] + [LineFeed] + JoinLines(rest[1..]);
        }
        forall k | 0 <= k < |lines| ensures LineFeed !in lines[k] {
          if k > 0 {
            assert lines[k] == rest[k];
          }
        }
      }
    }
  }

  /** `lines.filter(line => line.trim())`: keep the lines with some non-white-space character. */
  function KeepNonBlank(lines: seq<string>): (kept: seq<string>)
    ensures |kept| <= |lines|
  {
    if lines == [] then []
    else if Trim(lines[0]) != [] then [lines[0]] + KeepNonBlank(lines[1..])
    else KeepNonBlank(lines[1..])
  }

  /** A line is kept exactly when it is a line of the input and does not trim to nothing. */
  lemma {:induction false} KeepNonBlankKeepsExactlyNonBlank(lines: seq<string>)
    ensures forall line :: line in KeepNonBlank(lines) <==> line in lines && Trim(line) != []
  {
    if lines != [] {
      KeepNonBlankKeepsExactlyNonBlank(lines[1..]);
      assert lines == [lines[0]] + lines[1..];
    }
  }

  /** Filtering works line by line, so it keeps the kept lines in their original order. */
  lemma {:induction false} KeepNonBlankDistributes(a: seq<string>, b: seq<string>)
    ensures KeepNonBlank(a + b) == KeepNonBlank(a) + KeepNonBlank(b)
  {
    if a != [] {
      assert (a + b)[0] == a[0];
      assert (a + b)[1..] == a[1..] + b;
      KeepNonBlankDistributes(a[1..], b);
      if Trim(a[0]) != [] {
        assert KeepNonBlank(a + b) == [a[0]] + KeepNonBlank(a[1..] + b);
        assert KeepNonBlank(a) == [a[0]] + KeepNonBlank(a[1..]);
      }
    } else {
      assert a + b == b;
    }
  }

  /** The rows of a glyph: the non-blank lines of the trimmed text, each with its own indentation. */
  function Rows(pixelData: string): seq<string>
  {
    KeepNonBlank(SplitLines(Trim(pixelData)))
  }

  /** One rendered cell: filled or transparent, `size` wide and high. */
  datatype Cell = Cell(filled: bool, width: real, height: real)

  function CellOf(c: char, size: real): Cell
  {
    Cell(c == FullBlock, size, size)
  }

  /** The cells of one row, one per character. */
  function RowCells(line: string, size: real): (cells: seq<Cell>)
    ensures |cells| == |line|
  {
    seq(|line|, x requires 0 <= x < |line| => CellOf(line[x], size))
  }

  /** The rendered grid of a glyph with cells of the given size. */
  function Render(pixelData: string, size: real): (grid: seq<seq<Cell>>)
    ensures |grid| == |Rows(pixelData)|
  {
    var rows := Rows(pixelData);
    seq(|rows|, y requires 0 <= y < |rows| => RowCells(rows[y], size))
  }

  /**
   * Rows and cells correspond one to one with kept lines and their characters: a cell is filled
   * exactly when its character is a full block, and every cell is `size` by `size`.
   */
  lemma RenderMatchesRows(pixelData: string, size: real)
    ensures forall y :: 0 <= y < |Rows(pixelData)| ==> |Render(pixelData, size)[y]| == |Rows(pixelData)[y]|
    ensures forall y, x :: 0 <= y < |Rows(pixelData)| && 0 <= x < |Rows(pixelData)[y]| ==>
              && (Render(pixelData, size)[y][x].filled <==> Rows(pixelData)[y][x] == FullBlock)
              && Render(pixelData, size)[y][x].width == size
              && Render(pixelData, size)[y][x].height == size
  {
  }

  /** How many times `c` occurs in `s`. */
  function Count(s: string, c: char): nat
  {
    if s == [] then 0 else (if s[0] == c then 1 else 0) + Count(s[1..], c)
  }

  lemma {:induction false} CountConcat(a: string, b: string, c: char)
    ensures Count(a + b, c) == Count(a, c) + Count(b, c)
  {
    if a != [] {
      assert (a + b)[0] == a[0];
      assert (a + b)[1..] == a[1..] + b;
      CountConcat(a[1..], b, c);
    } else {
      assert a + b == b;
    }
  }

  /** White space holds no full block. */
  lemma {:induction false} NoBlockInWhitespace(s: string)
    requires AllWhitespace(s)
    ensures Count(s, FullBlock) == 0
  {
    if s != [] {
      NoBlockInWhitespace(s[1..]);
    }
  }

  /** Trimming removes no full block. */
  lemma TrimKeepsBlocks(s: string)
    ensures Count(Trim(s), FullBlock) == Count(s, FullBlock)
  {
    var t := TrimStart(s);
    TrimStartDropsWhitespace(s);
    TrimEndDropsWhitespace(t);
    var i := |s| - |t|;
    assert s == s[..i] + t;
    CountConcat(s[..i], t, FullBlock);
    NoBlockInWhitespace(s[..i]);
    var u := TrimEnd(t);
    assert t == u + t[|u|..];
    CountConcat(u, t[|u|..], FullBlock);
    NoBlockInWhitespace(t[|u|..]);
  }

  /** The full blocks of a list of lines. */
  function CountInLines(lines: seq<string>): nat
  {
    if lines == [] then 0 else Count(lines[0], FullBlock) + CountInLines(lines[1..])
  }

  /** Splitting on line feeds loses no full block. */
  lemma {:induction false} SplitKeepsBlocks(s: string)
    ensures CountInLines(SplitLines(s)) == Count(s, FullBlock)
  {
    if s != [] {
      SplitKeepsBlocks(s[1..]);
      var rest := SplitLines(s[1..]);
      if s[0] != LineFeed {
        var lines := SplitLines(s);
        assert lines[1..] == rest[1..];
        assert ([s[0]] + rest[0])[1..] == rest[0];
        assert CountInLines(rest) == Count(rest[0], FullBlock) + CountInLines(rest[1..]);
      } else {
        assert (SplitLines(s))[1..] == rest;
      }
    }
  }

  /** Dropping blank lines loses no full block. */
  lemma {:induction false} KeepNonBlankKeepsBlocks(lines: seq<string>)
    ensures CountInLines(KeepNonBlank(lines)) == CountInLines(lines)
  {
    if lines != [] {
      KeepNonBlankKeepsBlocks(lines[1..]);
      if Trim(lines[0]) == [] {
        TrimEmptyIffWhitespace(lines[0]);
        NoBlockInWhitespace(lines[0]);
      } else {
        assert KeepNonBlank(lines) == [lines[0]] + KeepNonBlank(lines[1..]);
        assert ([lines[0]] + KeepNonBlank(lines[1..]))[1..] == KeepNonBlank(lines[1..]);
      }
    }
  }

  /** The filled cells of a grid. */
  function FilledCells(grid: seq<seq<Cell>>): nat
  {
    if grid == [] then 0 else FilledInRow(grid[0]) + FilledCells(grid[1..])
  }

  function FilledInRow(row: seq<Cell>): nat
  {
    if row == [] then 0 else (if row[0].filled then 1 else 0) + FilledInRow(row[1..])
  }

  lemma {:induction false} RowFilledCount(line: string, size: real)
    ensures FilledInRow(RowCells(line, size)) == Count(line, FullBlock)
  {
    if line != [] {
      assert RowCells(line, size)[1..] == RowCells(line[1..], size);
      RowFilledCount(line[1..], size);
    }
  }

  lemma {:induction false} GridFilledCount(rows: seq<string>, size: real)
    ensures FilledCells(seq(|rows|, y requires 0 <= y < |rows| => RowCells(rows[y], size))) == CountInLines(rows)
  {
    if rows != [] {
      var grid := seq(|rows|, y requires 0 <= y < |rows| => RowCells(rows[y], size));
      assert grid[1..] == seq(|rows[1..]|, y requires 0 <= y < |rows[1..]| => RowCells(rows[1..][y], size));
      GridFilledCount(rows[1..], size);
      RowFilledCount(rows[0], size);
    }
  }

  /**
   * The rendered glyph has exactly as many filled cells as the text has full blocks: trimming,
   * splitting and dropping blank lines never lose one.
   */
  lemma FilledCellsEqualBlocks(pixelData: string, size: real)
    ensures FilledCells(Render(pixelData, size)) == CountInLines(Rows(pixelData))
    ensures FilledCells(Render(pixelData, size)) == Count(pixelData, FullBlock)
  {
    GridFilledCount(Rows(pixelData), size);
    KeepNonBlankKeepsBlocks(SplitLines(Trim(pixelData)));
    SplitKeepsBlocks(Trim(pixelData));
    TrimKeepsBlocks(pixelData);
  }

  /** Text that is only white space renders no rows at all. */
  lemma WhitespaceOnlyHasNoRows(pixelData: string)
    requires AllWhitespace(pixelData)
    ensures Rows(pixelData) == [] && Render(pixelData, DefaultSize) == []
  {
    TrimEmptyIffWhitespace(pixelData);
    assert SplitLines([]) == [""];
    assert KeepNonBlank([""]) == [];
  }
}
