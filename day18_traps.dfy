/** day18: rows of safe tiles and traps. A tile of the next row is a trap
    exactly when one, and only one, of its two neighbours above is a trap;
    the answer counts the safe tiles over a number of rows. */
module Traps {
  import opened Common

  /** `chars().map(|c| c == '^')`. */
  function ParseRow(input: string): (r: seq<bool>)
    ensures |r| == |input|
    ensures forall i :: 0 <= i < |input| ==> (r[i] <==> input[i] == '^')
  {
    seq(|input|, i requires 0 <= i < |input| => input[i] == '^')
  }

  /** `left_is_trap ^ right_is_trap` at index i; a neighbour outside the
      row counts as safe. */
  predicate TrapBelow(traps: seq<bool>, i: nat)
    requires i < |traps|
  {
    var left := i != 0 && traps[i - 1];
    var right := i < |traps| - 1 && traps[i + 1];
    left != right
  }

  /** The row `next_row` builds. */
  function Next(traps: seq<bool>): (r: seq<bool>)
    ensures |r| == |traps|
  {
    seq(|traps|, i requires 0 <= i < |traps| => TrapBelow(traps, i))
  }

  /** The row after k applications of `next_row`. */
  function Iterate(traps: seq<bool>, k: nat): (r: seq<bool>)
    ensures |r| == |traps|
    decreases k
  {
    if k == 0 then traps else Next(Iterate(traps, k - 1))
  }

  /** `iter().filter(|t| !**t).count()`. */
  function Safe(traps: seq<bool>): (n: nat)
    ensures n <= |traps|
    decreases |traps|
  {
    if traps == [] then 0 else (if traps[0] then 0 else 1) + Safe(traps[1..])
  }

  /** The safe tiles of the first n rows. */
  function SafeRows(traps: seq<bool>, n: nat): (total: nat)
    decreases n
  {
    if n == 0 then 0 else SafeRows(traps, n - 1) + Safe(Iterate(traps, n - 1))
  }

  /** The program's answer: `args.rows - 1` panics when `rows` is 0. */
  function SafeCount(input: string, rows: nat): Result<nat> {
    if rows == 0 then Panic("attempt to subtract with overflow")
    else Ok(SafeRows(ParseRow(input), rows))
  }

  // ---------------------------------------------------------------------
  // The loops

  /** `next_row`: a `vec![false; len]` whose cells are set one by one. */
  method NextRow(traps: seq<bool>) returns (result: seq<bool>)
    ensures result == Next(traps)
  {
    var cells := new bool[|traps|](_ => false);
    for i := 0 to |traps|
      invariant forall k :: 0 <= k < i ==> cells[k] == TrapBelow(traps, k)
      invariant forall k :: i <= k < |traps| ==> !cells[k]
    {
      var leftIsTrap := i != 0 && traps[i - 1];
      var rightIsTrap := i < |traps| - 1 && traps[i + 1];
      if leftIsTrap != rightIsTrap {
        cells[i] := true;
      }
    }
    result := cells[..];
  }

  /** `main`: the first row's safe tiles, then `rows - 1` new rows. */
  method Count(input: string, rows: nat) returns (r: Result<nat>)
    ensures r == SafeCount(input, rows)
  {
    if rows == 0 {
      return Panic("attempt to subtract with overflow");
    }
    var traps := ParseRow(input);
    var safeCount := Safe(traps);
    for k := 0 to rows - 1
      invariant traps == Iterate(ParseRow(input), k)
      invariant safeCount == SafeRows(ParseRow(input), k + 1)
    {
      traps := NextRow(traps);
      safeCount := safeCount + Safe(traps);
    }
    r := Ok(safeCount);
  }

  // ---------------------------------------------------------------------
  // Properties

  /** The puzzle states the rule as four patterns of left, centre and right
      tiles above; the code's exclusive or of the two neighbours agrees with
      them on every row. */
  lemma RuleAgreesWithPatterns(traps: seq<bool>, i: nat)
    requires i < |traps|
    ensures var l := i > 0 && traps[i - 1];
      var c := traps[i];
      var r := i + 1 < |traps| && traps[i + 1];
      Next(traps)[i] <==> (l && c && !r) || (!l && c && r) || (l && !c && !r) || (!l && !c && r)
  {
  }

  /** A tile's own state does not affect the tile below it. */
  lemma OwnTileIgnored(traps: seq<bool>, i: nat, b: bool)
    requires i < |traps|
    ensures Next(traps[i := b])[i] == Next(traps)[i]
  {
  }

  /** Only the two neighbours matter: rows that agree on them agree below. */
  lemma NeighboursDecide(a: seq<bool>, b: seq<bool>, i: nat)
    requires |a| == |b| && i < |a|
    requires i > 0 ==> a[i - 1] == b[i - 1]
    requires i + 1 < |a| ==> a[i + 1] == b[i + 1]
    ensures Next(a)[i] == Next(b)[i]
  {
  }

  /** An all-safe row stays all safe, so it keeps its count in every row. */
  lemma {:induction false} SafeRowStaysSafe(traps: seq<bool>, k: nat)
    requires forall i :: 0 <= i < |traps| ==> !traps[i]
    ensures forall i :: 0 <= i < |traps| ==> !Iterate(traps, k)[i]
    decreases k
  {
    if k > 0 {
      SafeRowStaysSafe(traps, k - 1);
    }
  }

  lemma {:induction false} AllSafeCount(traps: seq<bool>)
    requires forall i :: 0 <= i < |traps| ==> !traps[i]
    ensures Safe(traps) == |traps|
    decreases |traps|
  {
    if traps != [] {
      AllSafeCount(traps[1..]);
    }
  }

  /** The answer counts at most every tile of every row, and exactly that
      many when the first row is all safe. */
  lemma {:induction false} SafeRowsBound(traps: seq<bool>, n: nat)
    ensures SafeRows(traps, n) <= n * |traps|
    ensures (forall i :: 0 <= i < |traps| ==> !traps[i]) ==> SafeRows(traps, n) == n * |traps|
    decreases n
  {
    if n > 0 {
      SafeRowsBound(traps, n - 1);
      assert (n - 1) * |traps| + |traps| == n * |traps|;
      if forall i :: 0 <= i < |traps| ==> !traps[i] {
        SafeRowStaysSafe(traps, n - 1);
        AllSafeCount(Iterate(traps, n - 1));
      }
    }
  }

  /** The sample from the puzzle: `..^^.` becomes `.^^^^` and then `^^..^`. */
  lemma ExampleRows()
    ensures Next(ParseRow("..^^.")) == ParseRow(".^^^^")
    ensures Next(ParseRow(".^^^^")) == ParseRow("^^..^")
  {
    assert ParseRow("..^^.") == [false, false, true, true, false];
    assert ParseRow(".^^^^") == [false, true, true, true, true];
    assert ParseRow("^^..^") == [true, true, false, false, true];
  }
}
