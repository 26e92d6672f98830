/** Spreadsheets as the imports receive them: lines of cells, of any lengths. */
module Sheets {

  type Sheet = seq<seq<string>>

  // A cell beyond the end of its line is empty.
  function Cell(row: seq<string>, j: nat): string {
    if j < |row| then row[j] else ""
  }
}
