/** Reading cells of a fetched sheet row, which the sheet store may return shorter than requested. */
module Cells {

  /**
   * `item_or_empty(array, index)`: the cell at `index`, or `""` past the end of the row.
   * Every caller passes a non-negative index.
   */
  function ItemOrEmpty(row: seq<string>, index: nat): (r: string)
    ensures index < |row| ==> r == row[index]
    ensures index >= |row| ==> r == ""
  {
    if index < |row| then row[index] else ""
  }

  /** A row is padded with `fill`. */
  function Padded(row: seq<string>, count: nat, fill: string): (r: seq<string>)
    ensures |r| == |row| + count && r[..|row|] == row
    ensures forall k :: |row| <= k < |r| ==> r[k] == fill
  {
    row + seq(count, _ => fill)
  }

  /** Cells padded with `""` read exactly as the missing cells they replace. */
  lemma PaddingReadsAsMissing(row: seq<string>, count: nat, index: nat)
    ensures ItemOrEmpty(Padded(row, count, ""), index) == ItemOrEmpty(row, index)
  {
  }
}
