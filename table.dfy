/** The fixed-width console table: columns are admitted while they fit in
    the width budget, then a header and rows are rendered cell by cell. */
module Tables {
  import opened TraceTypes
  import opened Extensions

  datatype Column = Column(name: string, width: nat)

  /** Width taken by a list of columns: each column plus one separator. */
  function SumWidths(cols: seq<Column>): (r: nat)
    ensures |cols| <= r
  {
    if cols == [] then 0 else cols[0].width + 1 + SumWidths(cols[1..])
  }

  lemma {:induction false} SumWidthsAppend(cols: seq<Column>, c: Column)
    ensures SumWidths(cols + [c]) == SumWidths(cols) + c.width + 1
    decreases |cols|
  {
    if cols == [] {
      assert cols + [c] == [c];
    } else {
      assert (cols + [c])[1..] == cols[1..] + [c];
      SumWidthsAppend(cols[1..], c);
    }
  }

  // ---------------------------------------------------------------------
  // Admission of columns
  // ---------------------------------------------------------------------

  /** The columns admitted when `requests` are added in order to an empty
      table with the given width budget. */
  function Admit(requests: seq<Column>, maxWidth: nat): (r: seq<Column>)
    ensures |r| <= |requests|
    decreases |requests|
  {
    if requests == [] then []
    else
      var admitted := Admit(requests[..|requests| - 1], maxWidth);
      var c := requests[|requests| - 1];
      if SumWidths(admitted) + c.width + 1 <= maxWidth then admitted + [c] else admitted
  }

  /** Admitted columns always fit in the budget. */
  lemma {:induction false} AdmitFits(requests: seq<Column>, maxWidth: nat)
    ensures SumWidths(Admit(requests, maxWidth)) <= maxWidth
    decreases |requests|
  {
    if requests != [] {
      var admitted := Admit(requests[..|requests| - 1], maxWidth);
      AdmitFits(requests[..|requests| - 1], maxWidth);
      SumWidthsAppend(admitted, requests[|requests| - 1]);
    }
  }

  /** `sub` keeps some of the elements of `s`, in their order. */
  predicate IsSubsequence(sub: seq<Column>, s: seq<Column>)
    decreases |s|
  {
    if sub == [] then true
    else if s == [] then false
    else if sub[|sub| - 1] == s[|s| - 1] then IsSubsequence(sub[..|sub| - 1], s[..|s| - 1])
    else IsSubsequence(sub, s[..|s| - 1])
  }

  lemma {:induction false} SubsequenceOfPrefix(sub: seq<Column>, s: seq<Column>, c: Column)
    requires IsSubsequence(sub, s)
    ensures IsSubsequence(sub, s + [c])
  {
    var t := s + [c];
    assert t[..|t| - 1] == s;
    if sub != [] && sub[|sub| - 1] == c {
      SubsequenceShrink(sub, s);
    }
  }

  lemma {:induction false} SubsequenceShrink(sub: seq<Column>, s: seq<Column>)
    requires sub != [] && IsSubsequence(sub, s)
    ensures IsSubsequence(sub[..|sub| - 1], s)
    decreases |s|
  {
    var init := sub[..|sub| - 1];
    if s != [] {
      if sub[|sub| - 1] == s[|s| - 1] {
        if init != [] {
          SubsequenceShrink(init, s[..|s| - 1]);
          assert init[..|init| - 1] == sub[..|sub| - 2];
        }
        if init != [] && init[|init| - 1] == s[|s| - 1] {
          assert IsSubsequence(init, s);
        } else if init != [] {
          assert IsSubsequence(init, s[..|s| - 1]);
        }
      } else {
        SubsequenceShrink(sub, s[..|s| - 1]);
        if init != [] && init[|init| - 1] == s[|s| - 1] {
          SubsequenceShrink(init, s[..|s| - 1]);
          assert init[..|init| - 1] == sub[..|sub| - 2];
        }
      }
    }
  }

  /** Admission never reorders: the admitted columns are a subsequence of
      the requested ones. */
  lemma {:induction false} AdmitKeepsOrder(requests: seq<Column>, maxWidth: nat)
    ensures IsSubsequence(Admit(requests, maxWidth), requests)
    decreases |requests|
  {
    if requests != [] {
      var init := requests[..|requests| - 1];
      var c := requests[|requests| - 1];
      assert requests == init + [c];
      AdmitKeepsOrder(init, maxWidth);
      var admitted := Admit(init, maxWidth);
      if SumWidths(admitted) + c.width + 1 <= maxWidth {
        var t := admitted + [c];
        assert t[..|t| - 1] == admitted;
      } else {
        SubsequenceOfPrefix(admitted, init, c);
      }
    }
  }

  /** A rejected column leaves no trace: later admissions are decided as if
      it had never been requested. */
  lemma {:induction false} RejectedColumnIsInvisible(before: seq<Column>, c: Column, after: seq<Column>, maxWidth: nat)
    requires SumWidths(Admit(before, maxWidth)) + c.width + 1 > maxWidth
    ensures Admit(before + [c] + after, maxWidth) == Admit(before + after, maxWidth)
    decreases |after|
  {
    if after == [] {
      assert (before + [c])[..|before + [c]| - 1] == before;
      assert before + [c] + after == before + [c];
      assert before + after == before;
    } else {
      var init := after[..|after| - 1];
      var x := after[|after| - 1];
      RejectedColumnIsInvisible(before, c, init, maxWidth);
      var s1 := before + [c] + after;
      var s2 := before + after;
      assert s1[..|s1| - 1] == before + [c] + init;
      assert s2[..|s2| - 1] == before + init;
      assert s1[|s1| - 1] == x && s2[|s2| - 1] == x;
    }
  }

  /** Three columns of width 10 with room for two: the third is dropped. */
  lemma AdmitExample()
    ensures Admit([Column("a", 10), Column("b", 10), Column("c", 10)], 30) ==
            [Column("a", 10), Column("b", 10)]
  {
    var a, b, c := Column("a", 10), Column("b", 10), Column("c", 10);
    assert [a][..0] == [];
    assert Admit([a], 30) == [a];
    assert [a, b][..1] == [a];
    assert SumWidths([a]) == 11;
    assert Admit([a, b], 30) == [a, b];
    assert [a, b, c][..2] == [a, b];
    assert [a, b][1..] == [b] && [b][1..] == [];
    assert SumWidths([b]) == 11;
    assert SumWidths([a, b]) == 22;
  }

  // ---------------------------------------------------------------------
  // Rendering
  // ---------------------------------------------------------------------

  /** `t` written in front of whatever `r` writes; a throw stays a throw. */
  function Prepend(t: string, r: Result<string>): Result<string>
  {
    match r
    case Ok(s) => Ok(t + s)
    case Throws(x) => Throws(x)
  }

  lemma PrependEmpty(r: Result<string>)
    ensures Prepend("", r) == r
  {
    if r.Ok? {
      assert "" + r.value == r.value;
    }
  }

  lemma PrependTwice(a: string, b: string, r: Result<string>)
    ensures Prepend(a, Prepend(b, r)) == Prepend(a + b, r)
  {
    if r.Ok? {
      assert a + (b + r.value) == (a + b) + r.value;
    }
  }

  /** A non-last cell: the value truncated and padded to the column width,
      then one separating space. */
  function Cell(value: string, width: nat): (r: string)
    requires CanTruncate(value, width)
    ensures |r| == width + 1
    ensures r[width] == ' '
    ensures r[..|Truncate(value, width)|] == Truncate(value, width)
    ensures forall k :: |Truncate(value, width)| <= k < width ==> r[k] == ' '
  {
    PadRight(Truncate(value, width), width) + " "
  }

  /** The header cells: each column name in a cell of the column's width. */
  function HeaderCells(cols: seq<Column>): (r: Result<string>)
    ensures r.Throws? ==> r.error == ArgumentOutOfRange
    decreases |cols|
  {
    if cols == [] then Ok("")
    else if !CanTruncate(cols[0].name, cols[0].width) then Throws(ArgumentOutOfRange)
    else Prepend(Cell(cols[0].name, cols[0].width), HeaderCells(cols[1..]))
  }

  /** What PrintHeader writes: the header cells, a line break, a dash line
      as wide as the used width and a line break. */
  function HeaderText(cols: seq<Column>, usedWidth: nat): (r: Result<string>)
    ensures r.Ok? <==> HeaderCells(cols).Ok?
    ensures r.Ok? ==>
      var h := HeaderCells(cols).value;
      |r.value| == |h| + usedWidth + 2 && r.value[..|h|] == h && r.value[|h|] == '\n' &&
      (forall i :: |h| < i <= |h| + usedWidth ==> r.value[i] == '-') && r.value[|r.value| - 1] == '\n'
  {
    match HeaderCells(cols)
    case Ok(h) => Ok(h + "\n" + seq(usedWidth, _ => '-') + "\n")
    case Throws(x) => Throws(x)
  }

  /** The row cells for `values` matched positionally to `cols`: values
      beyond the columns are dropped, the value at the last column is
      truncated to `lastLimit` with no padding or separator. */
  function RowCells(cols: seq<Column>, values: seq<string>, lastLimit: int): (r: Result<string>)
    ensures r.Throws? ==> r.error == ArgumentOutOfRange
    decreases |values|
  {
    if cols == [] || values == [] then Ok("")
    else if |cols| == 1 then
      if CanTruncate(values[0], lastLimit) then Ok(Truncate(values[0], lastLimit))
      else Throws(ArgumentOutOfRange)
    else if !CanTruncate(values[0], cols[0].width) then Throws(ArgumentOutOfRange)
    else Prepend(Cell(values[0], cols[0].width), RowCells(cols[1..], values[1..], lastLimit))
  }

  /** What PrintRow writes: the row cells, then a line break unless there
      were more values than columns (that path returns before the line
      break is written). */
  function RowText(cols: seq<Column>, values: seq<string>, lastLimit: int): (r: Result<string>)
    ensures r.Ok? <==> RowCells(cols, values, lastLimit).Ok?
    ensures r.Ok? && |values| <= |cols| ==>
      |r.value| >= 1 && r.value[|r.value| - 1] == '\n' &&
      r.value[..|r.value| - 1] == RowCells(cols, values, lastLimit).value
    ensures r.Ok? && |values| > |cols| ==> r.value == RowCells(cols, values, lastLimit).value
  {
    match RowCells(cols, values, lastLimit)
    case Ok(r) => Ok(if |values| > |cols| then r else r + "\n")
    case Throws(x) => Throws(x)
  }

  /** The header cells are exactly as wide as the used width, the width of
      the dash line below them. */
  lemma {:induction false} HeaderWidth(cols: seq<Column>)
    ensures HeaderCells(cols).Ok? ==> |HeaderCells(cols).value| == SumWidths(cols)
    decreases |cols|
  {
    if cols != [] {
      HeaderWidth(cols[1..]);
    }
  }

  /** The header can be printed exactly when every column name can be
      truncated to its width. */
  lemma {:induction false} HeaderThrowsIff(cols: seq<Column>)
    ensures HeaderCells(cols).Ok? <==> forall i :: 0 <= i < |cols| ==> CanTruncate(cols[i].name, cols[i].width)
    decreases |cols|
  {
    if cols != [] {
      HeaderThrowsIff(cols[1..]);
      assert forall i :: 1 <= i < |cols| ==> cols[i] == cols[1..][i - 1];
    }
  }

  /** Values beyond the number of columns never reach the output. */
  lemma {:induction false} RowDiscardsExtraValues(cols: seq<Column>, values: seq<string>, lastLimit: int)
    requires |values| > |cols|
    ensures RowCells(cols, values, lastLimit) == RowCells(cols, values[..|cols|], lastLimit)
    decreases |cols|
  {
    if |cols| > 1 {
      assert values[..|cols|][1..] == values[1..][..|cols| - 1];
      RowDiscardsExtraValues(cols[1..], values[1..], lastLimit);
    }
  }

  /** With fewer values than columns every cell is a full non-last cell:
      the row is as wide as the columns it fills. */
  lemma {:induction false} ShortRowWidth(cols: seq<Column>, values: seq<string>, lastLimit: int)
    requires |values| < |cols|
    requires RowCells(cols, values, lastLimit).Ok?
    ensures |RowCells(cols, values, lastLimit).value| == SumWidths(cols[..|values|])
    decreases |values|
  {
    if values != [] {
      var rest := RowCells(cols[1..], values[1..], lastLimit);
      assert RowCells(cols, values, lastLimit) == Prepend(Cell(values[0], cols[0].width), rest);
      ShortRowWidth(cols[1..], values[1..], lastLimit);
      var used := cols[..|values|];
      assert used[0] == cols[0] && used[1..] == cols[1..][..|values| - 1];
      assert SumWidths(used) == cols[0].width + 1 + SumWidths(cols[1..][..|values| - 1]);
    } else {
      assert cols[..0] == [];
    }
  }

  /** The cells of a row take at most the column widths before the last
      column plus the last column's limit. */
  lemma {:induction false} RowWidthBound(cols: seq<Column>, values: seq<string>, lastLimit: int)
    requires cols != [] && lastLimit >= 0
    requires RowCells(cols, values, lastLimit).Ok?
    ensures |RowCells(cols, values, lastLimit).value| + 1 <= SumWidths(cols) + lastLimit
    decreases |values|
  {
    if values != [] && |cols| > 1 {
      RowWidthBound(cols[1..], values[1..], lastLimit);
    }
  }

  /** A printed row is strictly narrower than the table's maximum width,
      so it never wraps onto a second console line. */
  lemma RowFitsMaxWidth(cols: seq<Column>, values: seq<string>, maxWidth: nat)
    requires SumWidths(cols) <= maxWidth
    requires RowCells(cols, values, maxWidth - SumWidths(cols)).Ok?
    ensures |RowCells(cols, values, maxWidth - SumWidths(cols)).value| < maxWidth || (cols == [] && maxWidth == 0)
  {
    if cols != [] {
      RowWidthBound(cols, values, maxWidth - SumWidths(cols));
    }
  }

  // ---------------------------------------------------------------------
  // The table
  // ---------------------------------------------------------------------

  class Table {
    /** The console width the table may use. */
    const MaxWidth: nat
    /** Width taken by the admitted columns, separators included. */
    var usedWidth: nat
    /** The admitted columns, in the order they were added. */
    var Columns: seq<Column>

    ghost predicate Valid()
      reads this
    {
      usedWidth == SumWidths(Columns) && usedWidth <= MaxWidth
    }

    constructor (maxWidth: nat)
      ensures Valid()
      ensures MaxWidth == maxWidth && Columns == [] && usedWidth == 0
    {
      MaxWidth := maxWidth;
      usedWidth := 0;
      Columns := [];
    }

    /** Admits the column when it fits in the remaining budget; otherwise
        the table is left as it was. */
    method AddColumn(name: string, width: nat)
      requires Valid()
      modifies this
      ensures Valid()
      ensures old(usedWidth) + width + 1 <= MaxWidth ==>
        Columns == old(Columns) + [Column(name, width)] && usedWidth == old(usedWidth) + width + 1
      ensures old(usedWidth) + width + 1 > MaxWidth ==>
        Columns == old(Columns) && usedWidth == old(usedWidth)
    {
      if usedWidth + width + 1 > MaxWidth {
        return;
      }
      SumWidthsAppend(Columns, Column(name, width));
      usedWidth := usedWidth + width + 1;
      Columns := Columns + [Column(name, width)];
    }

    /** Writes one cell per column name, then the dash line. */
    method PrintHeader() returns (text: Result<string>)
      requires Valid()
      ensures text == HeaderText(Columns, usedWidth)
    {
      var line := "";
      var i := 0;
      assert Columns[0..] == Columns;
      PrependEmpty(HeaderCells(Columns));
      while i < |Columns|
        invariant 0 <= i <= |Columns|
        invariant Prepend(line, HeaderCells(Columns[i..])) == HeaderCells(Columns)
      {
        var column := Columns[i];
        assert Columns[i..][1..] == Columns[i + 1..];
        if !CanTruncate(column.name, column.width) {
          return Throws(ArgumentOutOfRange);
        }
        PrependTwice(line, Cell(column.name, column.width), HeaderCells(Columns[i + 1..]));
        line := line + Cell(column.name, column.width);
        i := i + 1;
      }
      assert Columns[i..] == [] && line + "" == line;
      text := Ok(line + "\n" + seq(usedWidth, _ => '-') + "\n");
    }

    /** Writes the values positionally into the columns; the last column
        gets the space left after every column's width is reserved. */
    method PrintRow(values: seq<string>) returns (text: Result<string>)
      requires Valid()
      ensures text == RowText(Columns, values, MaxWidth - usedWidth)
    {
      var limit := MaxWidth - usedWidth;
      var line := "";
      var index := 0;
      assert Columns[0..] == Columns && values[0..] == values;
      PrependEmpty(RowCells(Columns, values, limit));
      while index < |values|
        invariant 0 <= index <= |values| && index <= |Columns|
        invariant Prepend(line, RowCells(Columns[index..], values[index..], limit)) ==
                  RowCells(Columns, values, limit)
      {
        if index >= |Columns| {
          assert Columns[index..] == [] && line + "" == line;
          return Ok(line);  // discard extraneous data
        }
        var column := Columns[index];
        var value := values[index];
        assert Columns[index..][1..] == Columns[index + 1..];
        assert values[index..][1..] == values[index + 1..];
        if index == |Columns| - 1 {
          if !CanTruncate(value, limit) {
            return Throws(ArgumentOutOfRange);
          }
          assert Columns[index + 1..] == [];
          assert Truncate(value, limit) + "" == Truncate(value, limit);
          PrependTwice(line, Truncate(value, limit), RowCells([], values[index + 1..], limit));
          line := line + Truncate(value, limit);
        } else {
          if !CanTruncate(value, column.width) {
            return Throws(ArgumentOutOfRange);
          }
          PrependTwice(line, Cell(value, column.width), RowCells(Columns[index + 1..], values[index + 1..], limit));
          line := line + Cell(value, column.width);
        }
        index := index + 1;
      }
      assert values[index..] == [] && line + "" == line;
      text := Ok(line + "\n");
    }
  }
}
