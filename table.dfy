/**
 * The rows main hands to the CSV writer, and reading them back.
 */
module Table {
  import opened Matcher

  /** One row: the fields passed to w.Write. */
  type Record = seq<Line>

  /** The header row ["index", "english"]. */
  const Header: Record := [
    [105, 110, 100, 101, 120],           // "index"
    [101, 110, 103, 108, 105, 115, 104]  // "english"
  ]

  /** Go's map index: the empty string for a missing key. */
  function Lookup(sounds: map<Line, Line>, k: Line): Line {
    if k in sounds then sounds[k] else []
  }

  /** The rows written for a given order list and map, in write order. */
  function Records(order: seq<Line>, sounds: map<Line, Line>): (rs: seq<Record>)
    decreases |order|
    ensures |rs| == |order| + 1 && rs[0] == Header
    ensures forall i :: 0 <= i < |order| ==> rs[i + 1] == [order[i], Lookup(sounds, order[i])]
  {
    if order == [] then [Header]
    else Records(order[..|order| - 1], sounds) + [[order[|order| - 1], Lookup(sounds, order[|order| - 1])]]
  }

  /** Re-reading data rows of two fields into a map, a later row overriding an earlier one. */
  function ReadBack(rows: seq<Record>): map<Line, Line>
    decreases |rows|
  {
    if rows == [] then map[]
    else
      var last := rows[|rows| - 1];
      var m := ReadBack(rows[..|rows| - 1]);
      if |last| == 2 then m[last[0] := last[1]] else m
  }
}
