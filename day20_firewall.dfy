/** day20: a blacklist of inclusive IP ranges `start-end` over the u32
    addresses. The ranges are sorted and merged; part 1 reports the lowest
    allowed address and part 2 the number of allowed addresses. */
module Firewall {
  import opened Common
  import opened Text
  import opened Sorting

  /** A blocked range: both ends included. */
  type Range = (nat, nat)

  function Max(a: nat, b: nat): nat { if a >= b then a else b }

  /** `split_once('-')` and two `parse::<u32>()`, each unwrapped. */
  function ParseRange(line: string): (r: Result<Range>)
    ensures r.Ok? ==> r.value.0 <= U32_MAX && r.value.1 <= U32_MAX
  {
    match SplitOnce(line, "-")
    case None => Panic("called `Option::unwrap()` on a `None` value")
    case Some((a, b)) =>
      match ParseU32(a)
      case None => Panic("called `Result::unwrap()` on an `Err` value")
      case Some(start) =>
        match ParseU32(b)
        case None => Panic("called `Result::unwrap()` on an `Err` value")
        case Some(end) => Ok((start, end))
  }

  /** v lies in one of the ranges. */
  predicate Blocked(rs: seq<Range>, v: int) {
    exists i :: 0 <= i < |rs| && rs[i].0 <= v <= rs[i].1
  }

  predicate InU32(rs: seq<Range>) {
    forall i :: 0 <= i < |rs| ==> rs[i].0 <= U32_MAX && rs[i].1 <= U32_MAX
  }

  /** No range is written end first. */
  predicate WellFormed(rs: seq<Range>) {
    forall i :: 0 <= i < |rs| ==> rs[i].0 <= rs[i].1
  }

  /** Each start lies above the end of every range before it. */
  predicate Separated(rs: seq<Range>) {
    forall i, j :: 0 <= i < j < |rs| ==> rs[i].1 < rs[j].0
  }

  predicate Ascending(rs: seq<Range>) {
    forall i, j :: 0 <= i < j < |rs| ==> rs[i].0 <= rs[j].0
  }

  // ---------------------------------------------------------------------
  // Sort and merge

  /** The order of tuples: by start, then by end. */
  predicate PairLe(x: Range, y: Range) {
    x.0 < y.0 || (x.0 == y.0 && x.1 <= y.1)
  }

  lemma PairLeIsTotal()
    ensures TotalPreorder(PairLe)
    ensures forall x, y :: PairLe(x, y) && PairLe(y, x) ==> x == y
  {
  }

  /** `.sorted()`. */
  function SortRanges(rs: seq<Range>): (r: seq<Range>)
    ensures SortedBy(r, PairLe)
    ensures multiset(r) == multiset(rs)
  {
    PairLeIsTotal();
    SortBy(rs, PairLe)
  }

  /** `acc.iter_mut().find(|r| r.0 <= start && r.1 >= start)`, from
      index k on. */
  function FindHolding(acc: seq<Range>, start: nat, k: nat): (r: Option<nat>)
    requires k <= |acc|
    ensures r.Some? ==> k <= r.value < |acc| && acc[r.value].0 <= start <= acc[r.value].1
    ensures r.Some? ==> forall i :: k <= i < r.value ==> !(acc[i].0 <= start <= acc[i].1)
    ensures r.None? ==> forall i :: k <= i < |acc| ==> !(acc[i].0 <= start <= acc[i].1)
    decreases |acc| - k
  {
    if k == |acc| then None
    else if acc[k].0 <= start && acc[k].1 >= start then Some(k)
    else FindHolding(acc, start, k + 1)
  }

  /** One step of the fold: the range holding the new start is widened to
      the larger end, or the new range is pushed. */
  function MergeStep(acc: seq<Range>, r: Range): seq<Range> {
    match FindHolding(acc, r.0, 0)
    case Some(k) => acc[k := (acc[k].0, Max(acc[k].1, r.1))]
    case None => acc + [r]
  }

  /** The fold over the ranges in order. */
  function Merge(rs: seq<Range>): seq<Range>
    decreases |rs|
  {
    if rs == [] then [] else MergeStep(Merge(rs[..|rs| - 1]), rs[|rs| - 1])
  }

  /** The fold, with `find` as a loop over `acc`. */
  method MergeSorted(sorted: seq<Range>) returns (acc: seq<Range>)
    ensures acc == Merge(sorted)
  {
    acc := [];
    for i := 0 to |sorted|
      invariant acc == Merge(sorted[..i])
    {
      var start, end := sorted[i].0, sorted[i].1;
      var k := 0;
      while k < |acc| && !(acc[k].0 <= start && acc[k].1 >= start)
        invariant k <= |acc|
        invariant FindHolding(acc, start, k) == FindHolding(acc, start, 0)
        decreases |acc| - k
      {
        k := k + 1;
      }
      if k < |acc| {
        acc := acc[k := (acc[k].0, Max(acc[k].1, end))];
      } else {
        acc := acc + [(start, end)];
      }
      assert sorted[..i + 1][..i] == sorted[..i];
    }
    assert sorted[..|sorted|] == sorted;
  }

  // ---------------------------------------------------------------------
  // Part 2: the gaps

  /** The loop of part 2 from index i on with the running total, in u32
      arithmetic: `ranges[i].0 - 1 - ranges[i - 1].1` panics below 0 and
      `+=` above `u32::MAX`. */
  function Totals(ranges: seq<Range>, i: nat, total: nat): Result<nat>
    requires 1 <= i <= |ranges| && InU32(ranges)
    decreases |ranges| - i
  {
    if i == |ranges| then
      var t := total + (U32_MAX - ranges[i - 1].1);
      if t > U32_MAX then Panic("attempt to add with overflow") else Ok(t)
    else if ranges[i].0 < 1 || ranges[i].0 - 1 < ranges[i - 1].1 then Panic("attempt to subtract with overflow")
    else
      var t := total + (ranges[i].0 - 1 - ranges[i - 1].1);
      if t > U32_MAX then Panic("attempt to add with overflow") else Totals(ranges, i + 1, t)
  }

  /** `total_allowed`; `ranges[0]` panics on an empty list. */
  function TotalAllowed(ranges: seq<Range>): Result<nat>
    requires InU32(ranges)
  {
    if ranges == [] then Panic("index out of bounds") else Totals(ranges, 1, ranges[0].0)
  }

  method CountAllowed(ranges: seq<Range>) returns (r: Result<nat>)
    requires InU32(ranges)
    ensures r == TotalAllowed(ranges)
  {
    if |ranges| == 0 {
      return Panic("index out of bounds");
    }
    var total: nat := ranges[0].0;
    for i := 1 to |ranges|
      invariant TotalAllowed(ranges) == Totals(ranges, i, total)
    {
      if ranges[i].0 < 1 || ranges[i].0 - 1 < ranges[i - 1].1 {
        return Panic("attempt to subtract with overflow");
      }
      var t := total + (ranges[i].0 - 1 - ranges[i - 1].1);
      if t > U32_MAX {
        return Panic("attempt to add with overflow");
      }
      total := t;
    }
    var t := total + (U32_MAX - ranges[|ranges| - 1].1);
    if t > U32_MAX {
      return Panic("attempt to add with overflow");
    }
    r := Ok(t);
  }

  // ---------------------------------------------------------------------
  // Part 1: as written, and the lowest allowed address

  function AddOne(x: nat): Result<nat> {
    if x + 1 > U32_MAX then Panic("attempt to add with overflow") else Ok(x + 1)
  }

  /** `first_allowed` as the program computes it: 0 only for a single
      range that starts above 0, otherwise the end of the first range plus
      one. */
  function FirstAllowedAsWritten(ranges: seq<Range>): (r: Result<nat>)
    ensures ranges == [] <==> r == Panic("index out of bounds")
    ensures r == Ok(0) <==> |ranges| == 1 && ranges[0].0 > 0
    ensures r.Ok? && r.value != 0 ==> r.value == ranges[0].1 + 1
  {
    if ranges == [] then Panic("index out of bounds")
    else if |ranges| == 1 && ranges[0].0 > 0 then Ok(0)
    else AddOne(ranges[0].1)
  }

  /** The lowest address at or above c that the ranges, taken in order of
      ascending start, leave open. */
  function LowestFrom(rs: seq<Range>, c: nat): nat
    decreases |rs|
  {
    if rs == [] then c
    else if rs[0].0 <= c then LowestFrom(rs[1..], Max(c, rs[0].1 + 1))
    else c
  }

  /** The lowest allowed address of the merged ranges, or `None` when every
      u32 address is blocked. */
  function LowestAllowed(ranges: seq<Range>): Option<nat> {
    var d := LowestFrom(ranges, 0);
    if d <= U32_MAX then Some(d) else None
  }

  /** Both answers as `main` prints them: part 1 by the program's own rule
      (`FirstAllowedAsWritten`), part 2 by the gap count. An empty list
      panics at `ranges[0]`, and a first range ending at `u32::MAX` panics
      at `+ 1` unless it is the only range and starts above 0. */
  function Answers(lines: seq<string>): (r: Result<(nat, nat)>)
    ensures r.Ok? ==> lines != [] && CollectAll(lines, ParseRange).Ok? && r.value.0 <= U32_MAX
    ensures r.Ok? ==> var ranges := Merge(SortRanges(CollectAll(lines, ParseRange).value));
      (r.value.0 == 0 <==> |ranges| == 1 && ranges[0].0 > 0)
      && (r.value.0 != 0 ==> r.value.0 == ranges[0].1 + 1)
  {
    match CollectAll(lines, ParseRange)
    case Panic(why) => Panic(why)
    case Ok(parsed) =>
      var ranges := Merge(SortRanges(parsed));
      ParsedKeepU32(lines, parsed);
      match FirstAllowedAsWritten(ranges)
      case Panic(why) => Panic(why)
      case Ok(first) =>
        match TotalAllowed(ranges)
        case Panic(why) => Panic(why)
        case Ok(total) => Ok((first, total))
  }

  /** Both answers with part 1 as evidently intended: the lowest allowed
      address; a list that blocks every address panics, as the program's
      `+ 1` does for a single range from 0 to `u32::MAX`. */
  function IntendedAnswers(lines: seq<string>): Result<(nat, nat)> {
    match CollectAll(lines, ParseRange)
    case Panic(why) => Panic(why)
    case Ok(parsed) =>
      var ranges := Merge(SortRanges(parsed));
      ParsedKeepU32(lines, parsed);
      if ranges == [] then Panic("index out of bounds")
      else
        match LowestAllowed(ranges)
        case None => Panic("attempt to add with overflow")
        case Some(first) =>
          match TotalAllowed(ranges)
          case Panic(why) => Panic(why)
          case Ok(total) => Ok((first, total))
  }

  /** `main`: parse, sort, fold, then both parts. */
  method Solve(lines: seq<string>) returns (r: Result<(nat, nat)>)
    ensures r == Answers(lines)
  {
    var parsed := CollectAll(lines, ParseRange);
    if parsed.Panic? {
      return Panic(parsed.reason);
    }
    var sorted := SortRanges(parsed.value);
    var ranges := MergeSorted(sorted);
    ParsedKeepU32(lines, parsed.value);
    var first := FirstAllowedAsWritten(ranges);
    if first.Panic? {
      return Panic(first.reason);
    }
    var total := CountAllowed(ranges);
    if total.Panic? {
      return Panic(total.reason);
    }
    r := Ok((first.value, total.value));
  }

  // ---------------------------------------------------------------------
  // Properties of the merge

  /** Parsed, sorted and merged ranges stay within u32. */
  lemma ParsedKeepU32(lines: seq<string>, parsed: seq<Range>)
    requires CollectAll(lines, ParseRange) == Ok(parsed)
    ensures InU32(parsed) && InU32(SortRanges(parsed)) && InU32(Merge(SortRanges(parsed)))
  {
    assert InU32(parsed) by {
      forall i | 0 <= i < |parsed| ensures parsed[i].0 <= U32_MAX && parsed[i].1 <= U32_MAX {
        assert ParseRange(lines[i]) == Ok(parsed[i]);
      }
    }
    SortKeeps(parsed);
    MergeKeepsU32(SortRanges(parsed));
  }

  /** Sorting keeps the ends within u32 and keeps every range well
      formed. */
  lemma SortKeeps(rs: seq<Range>)
    ensures InU32(rs) ==> InU32(SortRanges(rs))
    ensures WellFormed(rs) ==> WellFormed(SortRanges(rs))
  {
    var s := SortRanges(rs);
    forall i | 0 <= i < |s| ensures exists j :: 0 <= j < |rs| && rs[j] == s[i] {
      assert s[i] in multiset(rs);
    }
  }

  /** The fold keeps the ends within u32. */
  lemma {:induction false} MergeKeepsU32(rs: seq<Range>)
    requires InU32(rs)
    ensures InU32(Merge(rs))
    decreases |rs|
  {
    if rs != [] {
      MergeKeepsU32(rs[..|rs| - 1]);
    }
  }

  /** The fold keeps every range well formed. */
  lemma {:induction false} MergeWellFormed(rs: seq<Range>)
    requires WellFormed(rs)
    ensures WellFormed(Merge(rs))
    decreases |rs|
  {
    if rs != [] {
      MergeWellFormed(rs[..|rs| - 1]);
    }
  }


  /** The fold keeps the blocked addresses: after a step exactly the
      addresses blocked before or by the new range are blocked. */
  lemma MergeStepBlocks(acc: seq<Range>, r: Range, v: int)
    ensures Blocked(MergeStep(acc, r), v) <==> Blocked(acc, v) || r.0 <= v <= r.1
  {
    var next := MergeStep(acc, r);
    match FindHolding(acc, r.0, 0)
    case Some(k) =>
      if Blocked(next, v) {
        var i :| 0 <= i < |next| && next[i].0 <= v <= next[i].1;
        if i != k {
          assert acc[i] == next[i];
        } else if v > acc[k].1 {
          assert r.0 <= v <= r.1;
        } else {
          assert acc[k].0 <= v <= acc[k].1;
        }
      }
      if Blocked(acc, v) {
        var i :| 0 <= i < |acc| && acc[i].0 <= v <= acc[i].1;
        assert next[i].0 <= v <= next[i].1;
      }
      if r.0 <= v <= r.1 {
        assert next[k].0 <= v <= next[k].1;
      }
    case None =>
      if Blocked(next, v) {
        var i :| 0 <= i < |next| && next[i].0 <= v <= next[i].1;
        if i < |acc| {
          assert acc[i] == next[i];
        }
      }
      if Blocked(acc, v) {
        var i :| 0 <= i < |acc| && acc[i].0 <= v <= acc[i].1;
        assert next[i] == acc[i];
      }
      if r.0 <= v <= r.1 {
        assert next[|acc|] == r;
      }
  }

  /** The merged ranges block exactly the addresses the input blocks. */
  lemma {:induction false} MergeBlocks(rs: seq<Range>, v: int)
    ensures Blocked(Merge(rs), v) <==> Blocked(rs, v)
    decreases |rs|
  {
    if rs != [] {
      var front := rs[..|rs| - 1];
      MergeBlocks(front, v);
      MergeStepBlocks(Merge(front), rs[|rs| - 1], v);
      if Blocked(rs, v) {
        var i :| 0 <= i < |rs| && rs[i].0 <= v <= rs[i].1;
        if i < |rs| - 1 {
          assert front[i] == rs[i];
        }
      }
      if Blocked(front, v) {
        var i :| 0 <= i < |front| && front[i].0 <= v <= front[i].1;
        assert rs[i] == front[i];
      }
    }
  }

  /** Sorting does not change which addresses are blocked. */
  lemma SortBlocks(rs: seq<Range>, v: int)
    ensures Blocked(SortRanges(rs), v) <==> Blocked(rs, v)
  {
    var s := SortRanges(rs);
    if Blocked(rs, v) {
      var i :| 0 <= i < |rs| && rs[i].0 <= v <= rs[i].1;
      assert rs[i] in multiset(s);
    }
    if Blocked(s, v) {
      var i :| 0 <= i < |s| && s[i].0 <= v <= s[i].1;
      assert s[i] in multiset(rs);
    }
  }

  /** On ranges in ascending start order, `find` can only return the last
      merged range: a new range starting inside it widens it to the larger
      end, and any other range, even one starting right after its end, is
      pushed as a range of its own. The order and the separation are
      kept. */
  lemma MergeStepShape(acc: seq<Range>, r: Range)
    requires Separated(acc) && Ascending(acc)
    requires forall i :: 0 <= i < |acc| ==> acc[i].0 <= r.0
    ensures Separated(MergeStep(acc, r)) && Ascending(MergeStep(acc, r))
    ensures forall i :: 0 <= i < |MergeStep(acc, r)| ==> MergeStep(acc, r)[i].0 <= r.0
    ensures acc != [] && acc[|acc| - 1].0 <= r.0 <= acc[|acc| - 1].1 ==>
      MergeStep(acc, r) == acc[|acc| - 1 := (acc[|acc| - 1].0, Max(acc[|acc| - 1].1, r.1))]
    ensures acc == [] || r.0 > acc[|acc| - 1].1 ==> MergeStep(acc, r) == acc + [r]
  {
    match FindHolding(acc, r.0, 0)
    case Some(k) =>
    case None =>
      if acc != [] {
        assert !(acc[|acc| - 1].0 <= r.0 <= acc[|acc| - 1].1);
      }
  }

  /** The merged ranges are in ascending start order and each one starts
      above the end of every range before it. */
  lemma {:induction false} MergeSeparated(rs: seq<Range>)
    requires SortedBy(rs, PairLe)
    ensures Separated(Merge(rs)) && Ascending(Merge(rs))
    ensures rs != [] ==> forall i :: 0 <= i < |Merge(rs)| ==> Merge(rs)[i].0 <= rs[|rs| - 1].0
    decreases |rs|
  {
    if rs != [] {
      var front := rs[..|rs| - 1];
      var r := rs[|rs| - 1];
      assert SortedBy(front, PairLe);
      MergeSeparated(front);
      if front != [] {
        assert PairLe(front[|front| - 1], r);
      }
      MergeStepShape(Merge(front), r);
    }
  }

  // ---------------------------------------------------------------------
  // Properties of part 2

  /** The addresses the ranges cover, counted with their ends. */
  function Sizes(rs: seq<Range>): int
    decreases |rs|
  {
    if rs == [] then 0 else Sizes(rs[..|rs| - 1]) + ((rs[|rs| - 1].1 as int) - rs[|rs| - 1].0 + 1)
  }

  /** The running total of part 2 is the number of open addresses below the
      end of the last range seen plus one; so on separated well-formed
      ranges no step panics and the answer is 2^32 less the covered
      addresses. */
  lemma {:induction false} TotalsCount(ranges: seq<Range>, i: nat, total: nat)
    requires InU32(ranges) && WellFormed(ranges) && Separated(ranges)
    requires 1 <= i <= |ranges|
    requires total == ranges[i - 1].1 + 1 - Sizes(ranges[..i])
    ensures Totals(ranges, i, total) == Ok(U32_MAX + 1 - Sizes(ranges))
    decreases |ranges| - i
  {
    SizesBound(ranges[..i]);
    if i == |ranges| {
      assert ranges[..i] == ranges;
    } else {
      assert ranges[..i + 1][..i] == ranges[..i];
      SizesBound(ranges[..i + 1]);
      TotalsCount(ranges, i + 1, total + (ranges[i].0 - 1 - ranges[i - 1].1));
    }
  }

  /** A last well-formed range makes the covered addresses at least its
      size. */
  lemma {:induction false} SizesBound(rs: seq<Range>)
    requires WellFormed(rs) && rs != []
    ensures Sizes(rs) >= rs[|rs| - 1].1 - rs[|rs| - 1].0 + 1
    ensures Sizes(rs) >= 1
    decreases |rs|
  {
    var front := rs[..|rs| - 1];
    if front != [] {
      assert WellFormed(front);
      SizesBound(front);
    }
  }

  /** Part 2 on separated well-formed ranges: 2^32 less the covered
      addresses. */
  lemma TotalAllowedCount(ranges: seq<Range>)
    requires InU32(ranges) && WellFormed(ranges) && Separated(ranges) && ranges != []
    ensures TotalAllowed(ranges) == Ok(U32_MAX + 1 - Sizes(ranges))
  {
    assert ranges[..1] == [ranges[0]];
    TotalsCount(ranges, 1, ranges[0].0);
  }

  /** The addresses from a to b. */
  function Interval(a: int, b: int): (s: set<int>)
    ensures forall v :: v in s <==> a <= v <= b
    ensures a <= b + 1 ==> |s| == b - a + 1
    decreases b - a
  {
    if a > b then {} else Interval(a, b - 1) + {b}
  }


  /** The blocked addresses as a set. */
  function BlockedSet(rs: seq<Range>): (s: set<int>)
    ensures forall v :: v in s <==> Blocked(rs, v)
    decreases |rs|
  {
    if rs == [] then {}
    else
      BlockedByLast(rs);
      BlockedSet(rs[..|rs| - 1]) + Interval(rs[|rs| - 1].0, rs[|rs| - 1].1)
  }

  /** The last range blocks its addresses; the others block the rest. */
  lemma BlockedByLast(rs: seq<Range>)
    requires rs != []
    ensures forall v :: Blocked(rs, v) <==> Blocked(rs[..|rs| - 1], v) || rs[|rs| - 1].0 <= v <= rs[|rs| - 1].1
  {
    var front := rs[..|rs| - 1];
    forall v ensures Blocked(rs, v) <==> Blocked(front, v) || rs[|rs| - 1].0 <= v <= rs[|rs| - 1].1 {
      if Blocked(rs, v) {
        var i :| 0 <= i < |rs| && rs[i].0 <= v <= rs[i].1;
        if i < |front| {
          assert front[i] == rs[i];
        }
      }
      if Blocked(front, v) {
        var i :| 0 <= i < |front| && front[i].0 <= v <= front[i].1;
        assert rs[i] == front[i];
      }
    }
  }

  /** Separated well-formed ranges cover `Sizes` addresses. */
  lemma {:induction false} BlockedSetSize(rs: seq<Range>)
    requires WellFormed(rs) && Separated(rs)
    ensures |BlockedSet(rs)| == Sizes(rs)
    decreases |rs|
  {
    if rs != [] {
      var front := rs[..|rs| - 1];
      var last := rs[|rs| - 1];
      assert WellFormed(front) && Separated(front);
      BlockedSetSize(front);
      assert BlockedSet(front) * Interval(last.0, last.1) == {} by {
        forall v | v in BlockedSet(front) ensures v < last.0 {
          var i :| 0 <= i < |front| && front[i].0 <= v <= front[i].1;
          assert rs[i].1 < last.0;
        }
      }
    }
  }

  /** The addresses from 0 to top that no range blocks. */
  function OpenSet(rs: seq<Range>, top: nat): set<int> {
    set v | 0 <= v <= top && !Blocked(rs, v)
  }

  /** The allowed u32 addresses. */
  function AllowedSet(rs: seq<Range>): set<int> {
    OpenSet(rs, U32_MAX)
  }

  /** On separated well-formed u32 ranges, part 2's formula counts the
      allowed addresses. */
  lemma AllowedCount(rs: seq<Range>)
    requires InU32(rs) && WellFormed(rs) && Separated(rs)
    ensures |AllowedSet(rs)| == U32_MAX + 1 - Sizes(rs)
  {
    OpenCount(rs, U32_MAX);
  }

  /** Counting up to any top address above every range. */
  lemma OpenCount(rs: seq<Range>, top: nat)
    requires WellFormed(rs) && Separated(rs)
    requires forall i :: 0 <= i < |rs| ==> rs[i].1 <= top
    ensures |OpenSet(rs, top)| == top + 1 - Sizes(rs)
  {
    var all := Interval(0, top);
    var blocked := BlockedSet(rs);
    assert blocked <= all by {
      forall v | v in blocked ensures 0 <= v <= top {
        var i :| 0 <= i < |rs| && rs[i].0 <= v <= rs[i].1;
      }
    }
    assert OpenSet(rs, top) == all - blocked;

    DifferenceSize(all, blocked);
    BlockedSetSize(rs);
  }

  lemma DifferenceSize(a: set<int>, b: set<int>)
    requires b <= a
    ensures |a - b| == |a| - |b|
  {
    assert a == (a - b) + b;
    assert (a - b) * b == {};
  }


  /** Part 2: on well-formed input ranges the answer is the number of u32
      addresses no input range blocks. */
  lemma PartTwoCounts(lines: seq<string>)
    requires CollectAll(lines, ParseRange).Ok?
    requires WellFormed(CollectAll(lines, ParseRange).value)
    requires lines != []
    ensures Answers(lines).Ok? ==> Answers(lines).value.1 == |AllowedSet(CollectAll(lines, ParseRange).value)|
  {
    var parsed := CollectAll(lines, ParseRange).value;
    var ranges := Merge(SortRanges(parsed));
    ParsedKeepU32(lines, parsed);
    MergedShape(parsed);
    if ranges != [] {
      TotalAllowedCount(ranges);
      AllowedCount(ranges);
      SameAllowed(parsed);
    }
  }

  /** The merged ranges of well-formed input are well formed and
      separated. */
  lemma MergedShape(parsed: seq<Range>)
    requires WellFormed(parsed)
    ensures WellFormed(Merge(SortRanges(parsed))) && Separated(Merge(SortRanges(parsed)))
  {
    var sorted := SortRanges(parsed);
    SortKeeps(parsed);
    MergeWellFormed(sorted);
    MergeSeparated(sorted);
  }

  /** The merged ranges allow exactly what the input allows. */
  lemma SameAllowed(parsed: seq<Range>)
    ensures AllowedSet(Merge(SortRanges(parsed))) == AllowedSet(parsed)
  {
    var sorted := SortRanges(parsed);
    forall v ensures Blocked(Merge(sorted), v) <==> Blocked(parsed, v) {
      MergeBlocks(sorted, v);
      SortBlocks(parsed, v);
    }

  }

  // ---------------------------------------------------------------------
  // Properties of part 1

  /** The scan stops at an open address: every address from c up to it is
      blocked, and it is not. */
  lemma {:induction false} LowestFromMeaning(rs: seq<Range>, c: nat)
    requires Ascending(rs)
    ensures c <= LowestFrom(rs, c)
    ensures !Blocked(rs, LowestFrom(rs, c))
    ensures forall w :: c <= w < LowestFrom(rs, c) ==> Blocked(rs, w)
    decreases |rs|
  {
    if rs != [] {
      var d := LowestFrom(rs, c);
      if rs[0].0 <= c {
        var c' := Max(c, rs[0].1 + 1);
        assert d == LowestFrom(rs[1..], c');
        assert Ascending(rs[1..]);
        LowestFromMeaning(rs[1..], c');
        forall w | c <= w < d ensures Blocked(rs, w) {
          if w < c' {
            assert rs[0].0 <= w <= rs[0].1;
          } else {
            assert Blocked(rs[1..], w);
            var i :| 0 <= i < |rs[1..]| && rs[1..][i].0 <= w <= rs[1..][i].1;
            assert rs[i + 1] == rs[1..][i];
          }
        }
      }

    }
  }

  /** Intended part 1: the answer is an allowed address and every lower
      address is blocked by some input range. */
  lemma PartOneLowest(lines: seq<string>)
    requires IntendedAnswers(lines).Ok?
    ensures var first := IntendedAnswers(lines).value.0;
      var parsed := CollectAll(lines, ParseRange).value;
      first <= U32_MAX && !Blocked(parsed, first) && forall w :: 0 <= w < first ==> Blocked(parsed, w)
  {
    var parsed := CollectAll(lines, ParseRange).value;
    var sorted := SortRanges(parsed);
    var ranges := Merge(sorted);
    MergeSeparated(sorted);
    LowestFromMeaning(ranges, 0);
    var first := LowestFrom(ranges, 0);
    MergeBlocks(sorted, first);
    SortBlocks(parsed, first);
    forall w | 0 <= w < first ensures Blocked(parsed, w) {
      MergeBlocks(sorted, w);
      SortBlocks(parsed, w);
    }
  }

  /** Wherever the intended answers exist, the program's answers exist too
      and agree on part 2; only part 1 can differ. */
  lemma IntendedDiffersInPartOne(lines: seq<string>)
    requires IntendedAnswers(lines).Ok?
    ensures Answers(lines).Ok?
    ensures Answers(lines).value.1 == IntendedAnswers(lines).value.1
  {
    var parsed := CollectAll(lines, ParseRange).value;
    var sorted := SortRanges(parsed);
    var ranges := Merge(sorted);
    ParsedKeepU32(lines, parsed);
    MergeSeparated(sorted);
    if ranges[0].1 == U32_MAX && !(|ranges| == 1 && ranges[0].0 > 0) {
      assert LowestFrom(ranges, 0) == LowestFrom(ranges[1..], U32_MAX + 1);
      assert false;
    }
  }

  /** Where the program's part 1 is right: on merged ranges whose first
      range starts at 0 and is followed by a gap (or by nothing), its
      answer is the lowest allowed address. */
  lemma AsWrittenAgrees(ranges: seq<Range>)
    requires Separated(ranges) && Ascending(ranges) && ranges != []
    requires ranges[0].0 == 0 && ranges[0].1 < U32_MAX
    requires |ranges| > 1 ==> ranges[1].0 > ranges[0].1 + 1
    ensures FirstAllowedAsWritten(ranges) == Ok(ranges[0].1 + 1)
    ensures LowestAllowed(ranges) == Some(ranges[0].1 + 1)
  {
    assert LowestFrom(ranges, 0) == LowestFrom(ranges[1..], ranges[0].1 + 1);
  }

  /** Sorting leaves sorted ranges as they are. */
  lemma AlreadySorted(rs: seq<Range>)
    requires SortedBy(rs, PairLe)
    ensures SortRanges(rs) == rs
  {
    PairLeIsTotal();
    SortedUnique(SortRanges(rs), rs, PairLe);
  }

  /** The program's part 1 misses 0 when more than one range remains and
      none starts at 0: `5-8` and `10-12` give 9, yet 0 is allowed. */
  lemma AsWrittenMissesZero()
    ensures Merge(SortRanges([(5, 8), (10, 12)])) == [(5, 8), (10, 12)]
    ensures FirstAllowedAsWritten([(5, 8), (10, 12)]) == Ok(9)
    ensures !Blocked([(5, 8), (10, 12)], 0)
    ensures LowestAllowed([(5, 8), (10, 12)]) == Some(0)
  {
    AlreadySorted([(5, 8), (10, 12)]);
    assert Merge([(5, 8)]) == [(5, 8)];
  }

  /** The program's part 1 lands on a blocked address when the next range
      starts right after the first: `0-2` and `3-5` stay two ranges and
      give 3, which `3-5` blocks; the lowest allowed address is 6. */
  lemma AsWrittenBlocked()
    ensures Merge(SortRanges([(0, 2), (3, 5)])) == [(0, 2), (3, 5)]
    ensures FirstAllowedAsWritten([(0, 2), (3, 5)]) == Ok(3)
    ensures Blocked([(0, 2), (3, 5)], 3)
    ensures LowestAllowed([(0, 2), (3, 5)]) == Some(6)
  {
    AlreadySorted([(0, 2), (3, 5)]);
    assert Merge([(0, 2)]) == [(0, 2)];
    var rs: seq<Range> := [(0, 2), (3, 5)];
    assert rs[1].0 <= 3 <= rs[1].1;
    assert LowestFrom(rs, 0) == LowestFrom(rs[1..], 3) == LowestFrom([], 6);
  }
}
