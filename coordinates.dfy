/**
 * The two coordinate spaces the plugin moves between. The editor reports a
 * point as a 0-based (row, column) pair; the analyzer expects a 1-based line
 * and the same 0-based column. Every query that carries the cursor
 * (type-enclosing, locate, complete) crosses this boundary the same way.
 */
module Coordinates {

  /** Editor-native position, as returned by the editor's `rowcol`. */
  datatype RowCol = RowCol(row: nat, col: nat)

  /** Analyzer-native position: 1-based line, 0-based column. */
  datatype LineCol = LineCol(line: int, col: int)

  /** The position sent to the analyzer for an editor position. */
  function ToAnalyzer(p: RowCol): (q: LineCol)
    ensures q.line >= 1 && q.col >= 0
    ensures q.line - 1 == p.row && q.col == p.col
  {
    LineCol(p.row + 1, p.col)
  }

  /** Distinct editor positions are never sent as the same analyzer position. */
  lemma ToAnalyzerInjective(p: RowCol, p': RowCol)
    ensures ToAnalyzer(p) == ToAnalyzer(p') <==> p == p'
  {
  }
}
