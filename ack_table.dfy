/** The acknowledgement table `hasSent`: four rows (one per round), one cell per
    contract party and, while the rows have their original width, one aggregate
    cell at index N. A cell is set (true) when the Java cell is non-null. */
module AckTable {

  /** Every cell of the row is set. */
  predicate Full(row: seq<bool>) {
    forall i :: 0 <= i < |row| ==> row[i]
  }

  /** `Arrays.asList(row).indexOf(null)`: the first unset cell, or -1. */
  function IndexOfUnset(row: seq<bool>): (r: int)
    ensures -1 <= r < |row|
    ensures r == -1 <==> Full(row)
    ensures r >= 0 ==> !row[r] && forall i :: 0 <= i < r ==> row[i]
  {
    if row == [] then -1
    else if !row[0] then 0
    else
      var k := IndexOfUnset(row[1..]);
      if k == -1 then -1 else k + 1
  }

  /** Cells 0..n-1 are set and cell n exists and is unset: what the source's
      completion test `indexOf(null) == N` means. */
  predicate ReadyToClose(row: seq<bool>, n: nat) {
    n < |row| && !row[n] && forall i :: 0 <= i < n ==> row[i]
  }

  lemma ClosesIff(row: seq<bool>, n: nat)
    ensures IndexOfUnset(row) == n <==> ReadyToClose(row, n)
  {
    if ReadyToClose(row, n) {
      assert !row[n];
    }
  }

  /** A row of width n (what every reset allocates) can never pass the
      completion test for N == n. */
  lemma ShrunkRowNeverCloses(row: seq<bool>, n: nat)
    requires |row| == n
    ensures IndexOfUnset(row) != n
  {
  }

  /** Four rows of `width` unset cells. */
  function Cleared(width: nat): seq<seq<bool>> {
    seq(4, _ => seq(width, _ => false))
  }

  /** Sets cell i of row k. */
  function Mark(rows: seq<seq<bool>>, k: nat, i: nat): seq<seq<bool>>
    requires k < |rows| && i < |rows[k]|
  {
    rows[k := rows[k][i := true]]
  }

  /** `getRound`: the first of rows 0..2 that still has an unset cell, or 3 when
      rows 0..2 are full; row 3 is never consulted. */
  function RoundOf(rows: seq<seq<bool>>): (r: nat)
    requires |rows| == 4
    ensures r <= 3
    ensures r == 0 <==> !Full(rows[0])
    ensures r == 1 <==> Full(rows[0]) && !Full(rows[1])
    ensures r == 2 <==> Full(rows[0]) && Full(rows[1]) && !Full(rows[2])
    ensures r == 3 <==> Full(rows[0]) && Full(rows[1]) && Full(rows[2])
  {
    if IndexOfUnset(rows[0]) != -1 then 0
    else if IndexOfUnset(rows[1]) != -1 then 1
    else if IndexOfUnset(rows[2]) != -1 then 2
    else 3
  }

  /** Whatever row 3 holds, the round is the same. */
  lemma RoundIgnoresRow3(rows: seq<seq<bool>>, row3: seq<bool>)
    requires |rows| == 4
    ensures RoundOf(rows[3 := row3]) == RoundOf(rows)
  {
    assert rows[3 := row3][..3] == rows[..3];
    assert rows[3 := row3][0] == rows[0] && rows[3 := row3][1] == rows[1] && rows[3 := row3][2] == rows[2];
  }
}
