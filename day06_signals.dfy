/** day06: a message sent over and over on a noisy channel. Column by
    column, Part 1 takes the character that occurs most often among the
    received lines, and Part 2 the one that occurs least often. */
module Signals {
  import opened Common

  /** Every line has a character at column i. */
  predicate Covers(lines: seq<string>, i: nat) {
    forall k :: 0 <= k < |lines| ==> i < |lines[k]|
  }

  /** Column i of the lines, top to bottom. */
  function Column(lines: seq<string>, i: nat): (r: seq<char>)
    requires Covers(lines, i)
    ensures |r| == |lines| && forall k :: 0 <= k < |lines| ==> r[k] == lines[k][i]
  {
    seq(|lines|, k requires 0 <= k < |lines| => lines[k][i])
  }

  /** The `HashMap<char, usize>` of a column: every character that occurs,
      with how often it occurs. */
  function Tally(col: seq<char>): map<char, nat> {
    map c | c in col :: multiset(col)[c]
  }

  /** Counting one more character bumps its entry, or starts it at 1. */
  lemma TallyPush(col: seq<char>, x: char)
    ensures Tally(col + [x]) == Tally(col)[x := (if x in Tally(col) then Tally(col)[x] else 0) + 1]
  {
    var grown := col + [x];
    assert multiset(grown) == multiset(col) + multiset{x};
    forall c ensures c in grown <==> c in col || c == x {
      if c in grown {
        var k :| 0 <= k < |grown| && grown[k] == c;
        if k < |col| {
          assert col[k] == c;
        }
      }
      if c in col {
        var k :| 0 <= k < |col| && col[k] == c;
        assert grown[k] == c;
      }
      if c == x {
        assert grown[|col|] == x;
      }
    }
  }

  /** c is a most common character of the column. */
  predicate MostCommon(col: seq<char>, c: char) {
    c in col && forall d :: d in col ==> multiset(col)[d] <= multiset(col)[c]
  }

  /** c is a least common character among those that occur in the column. */
  predicate LeastCommon(col: seq<char>, c: char) {
    c in col && forall d :: d in col ==> multiset(col)[c] <= multiset(col)[d]
  }

  /** `lines.iter().counts_by(|line| line.chars().nth(i).unwrap())`: the
      first line without a character at column i panics; otherwise every
      line's character is counted. */
  method CountColumn(lines: seq<string>, i: nat) returns (r: Result<map<char, nat>>)
    ensures r.Ok? <==> Covers(lines, i)
    ensures r.Ok? ==> r.value == Tally(Column(lines, i))
    ensures r.Panic? ==> r.reason == "called `Option::unwrap()` on a `None` value"
  {
    var counts: map<char, nat> := map[];
    ghost var col: seq<char> := [];
    for k := 0 to |lines|
      invariant |col| == k && forall j :: 0 <= j < k ==> i < |lines[j]| && col[j] == lines[j][i]
      invariant counts == Tally(col)
    {
      if i >= |lines[k]| {
        return Panic("called `Option::unwrap()` on a `None` value");
      }
      var c := lines[k][i];
      TallyPush(col, c);
      counts := counts[c := (if c in counts then counts[c] else 0) + 1];
      col := col + [c];
    }
    assert col == Column(lines, i);
    r := Ok(counts);
  }

  /** `counts.iter().max_by_key(|(_, c)| *c).unwrap().0`: a key of largest
      count. The keys are visited in no particular order, as a hash map's
      are, so which of several tied keys comes out is left open. */
  method MaxByKey(counts: map<char, nat>) returns (best: char)
    requires counts != map[]
    ensures best in counts && forall c :: c in counts ==> counts[c] <= counts[best]
  {
    var keys := counts.Keys;
    best :| best in keys;
    keys := keys - {best};
    while keys != {}
      invariant keys <= counts.Keys && best in counts && best !in keys
      invariant forall c :: c in counts && c !in keys ==> counts[c] <= counts[best]
      decreases |keys|
    {
      var k :| k in keys;
      if counts[k] >= counts[best] {
        best := k;
      }
      keys := keys - {k};
    }
  }

  /** `counts.iter().min_by_key(|(_, c)| *c).unwrap().0`: a key of smallest
      count, ties again left open. */
  method MinByKey(counts: map<char, nat>) returns (best: char)
    requires counts != map[]
    ensures best in counts && forall c :: c in counts ==> counts[best] <= counts[c]
  {
    var keys := counts.Keys;
    best :| best in keys;
    keys := keys - {best};
    while keys != {}
      invariant keys <= counts.Keys && best in counts && best !in keys
      invariant forall c :: c in counts && c !in keys ==> counts[best] <= counts[c]
      decreases |keys|
    {
      var k :| k in keys;
      if counts[k] < counts[best] {
        best := k;
      }
      keys := keys - {k};
    }
  }

  /** The most common key of a column's tally is a most common character
      of the column, and the least common key a least common one. */
  lemma TallyChoice(col: seq<char>, c: char)
    ensures (c in Tally(col) && forall d :: d in Tally(col) ==> Tally(col)[d] <= Tally(col)[c]) <==> MostCommon(col, c)
    ensures (c in Tally(col) && forall d :: d in Tally(col) ==> Tally(col)[c] <= Tally(col)[d]) <==> LeastCommon(col, c)
  {
    forall d ensures d in Tally(col) <==> d in col {
    }
  }

  /** Every line is at least as long as the first. */
  predicate Rectangular(lines: seq<string>)
    requires lines != []
  {
    forall i :: 0 <= i < |lines[0]| ==> Covers(lines, i)
  }

  /** `main`: `lines[0]` panics on no lines; then for every column of the
      first line, its most and its least common character. */
  method Solve(lines: seq<string>) returns (r: Result<(string, string)>)
    ensures r.Ok? <==> lines != [] && Rectangular(lines)
    ensures lines == [] ==> r == Panic("index out of bounds")
    ensures lines != [] && r.Panic? ==> r.reason == "called `Option::unwrap()` on a `None` value"
    ensures r.Ok? ==> |r.value.0| == |lines[0]| && |r.value.1| == |lines[0]|
    ensures r.Ok? ==> forall i :: 0 <= i < |lines[0]| ==>
      MostCommon(Column(lines, i), r.value.0[i]) && LeastCommon(Column(lines, i), r.value.1[i])
  {
    if lines == [] {
      return Panic("index out of bounds");
    }
    var part1 := "";
    var part2 := "";
    for i := 0 to |lines[0]|
      invariant |part1| == i && |part2| == i
      invariant forall j :: 0 <= j < i ==> Covers(lines, j)
      invariant forall j :: 0 <= j < i ==>
        MostCommon(Column(lines, j), part1[j]) && LeastCommon(Column(lines, j), part2[j])
    {
      var counts := CountColumn(lines, i);
      if counts.Panic? {
        return Panic(counts.reason);
      }
      var col := Column(lines, i);
      assert col[0] in Tally(col);
      var most := MaxByKey(counts.value);
      var least := MinByKey(counts.value);
      TallyChoice(col, most);
      TallyChoice(col, least);
      part1 := part1 + [most];
      part2 := part2 + [least];
    }
    r := Ok((part1, part2));
  }
}
