/** day24: a robot in the air ducts must visit every numbered point of a
    maze, starting at point 0. The program measures the distance between
    every two points with a breadth-first search, and then tries every
    order of the other points, keeping the cheapest tour. */
module Ducts {
  import opened Common
  import opened Text
  import opened Sorting

  const NonePanic := "called `Option::unwrap()` on a `None` value"
  const ErrPanic := "called `Result::unwrap()` on an `Err` value"
  const SubtractPanic := "attempt to subtract with overflow"

  // ---------------------------------------------------------------------
  // The map and the required points

  /** A cell, as (x, y): column, then row. */
  type Cell = (nat, nat)

  /** `map`: a cell is open exactly when it is not a `#`. */
  function OpenMap(lines: seq<string>): (m: seq<seq<bool>>)
    ensures |m| == |lines|
    ensures forall y :: 0 <= y < |lines| ==> |m[y]| == |lines[y]|
    ensures forall y, x :: 0 <= y < |lines| && 0 <= x < |lines[y]| ==> (m[y][x] <==> lines[y][x] != '#')
  {
    seq(|lines|, y requires 0 <= y < |lines| => seq(|lines[y]|, x requires 0 <= x < |lines[y]| => lines[y][x] != '#'))
  }

  /** A required point: its cell and its digit. */
  datatype Point = Point(x: nat, y: nat, digit: nat)

  function Spot(p: Point): Cell {
    (p.x, p.y)
  }

  /** The filter: neither a wall nor open floor. */
  predicate Marked(c: char) {
    c != '#' && c != '.'
  }

  /** `c.to_string().parse::<u8>().unwrap()`. */
  function LabelOf(c: char): (r: Result<nat>)
    ensures r.Ok? <==> IsDigit(c)
    ensures r.Ok? ==> r.value == DigitValue(c)
  {
    assert [c][1..] == [] && [c][..0] == [];
    assert IsDigit(c) ==> AllDigits([c]) && DigitsValue([c]) == DigitValue(c);
    match ParseU8([c])
    case None => Panic(ErrPanic)
    case Some(v) => Ok(v)
  }

  /** The marked cells of row y from column x on, left to right. */
  function RowPoints(line: string, y: nat, x: nat): Result<seq<Point>>
    decreases |line| - x
  {
    if x >= |line| then Ok([])
    else if !Marked(line[x]) then RowPoints(line, y, x + 1)
    else
      match LabelOf(line[x])
      case Panic(why) => Panic(why)
      case Ok(digit) =>
        match RowPoints(line, y, x + 1)
        case Panic(why) => Panic(why)
        case Ok(rest) => Ok([Point(x, y, digit)] + rest)
  }

  /** The marked cells of the rows from y on, row by row: `flatten`. */
  function GridPoints(lines: seq<string>, y: nat): Result<seq<Point>>
    decreases |lines| - y
  {
    if y >= |lines| then Ok([])
    else
      match RowPoints(lines[y], y, 0)
      case Panic(why) => Panic(why)
      case Ok(row) =>
        match GridPoints(lines, y + 1)
        case Panic(why) => Panic(why)
        case Ok(rest) => Ok(row + rest)
  }

  /** p is the point listed for a digit cell. */
  predicate LabelledAt(lines: seq<string>, p: Point) {
    p.y < |lines| && p.x < |lines[p.y]| && Marked(lines[p.y][p.x]) &&
    IsDigit(lines[p.y][p.x]) && p.digit == DigitValue(lines[p.y][p.x])
  }

  lemma {:induction false} RowPointsMeaning(line: string, y: nat, x: nat)
    ensures RowPoints(line, y, x).Ok? <==> forall k :: x <= k < |line| && Marked(line[k]) ==> IsDigit(line[k])
    ensures RowPoints(line, y, x).Ok? ==> forall p :: p in RowPoints(line, y, x).value <==>
      p.y == y && x <= p.x < |line| && Marked(line[p.x]) && IsDigit(line[p.x]) && p.digit == DigitValue(line[p.x])
    decreases |line| - x
  {
    if x < |line| {
      RowPointsMeaning(line, y, x + 1);
    }
  }

  lemma {:induction false} GridPointsMeaning(lines: seq<string>, y: nat)
    ensures GridPoints(lines, y).Ok? <==>
      forall r, k :: y <= r < |lines| && 0 <= k < |lines[r]| && Marked(lines[r][k]) ==> IsDigit(lines[r][k])
    ensures GridPoints(lines, y).Ok? ==> forall p :: p in GridPoints(lines, y).value <==> y <= p.y && LabelledAt(lines, p)
    decreases |lines| - y
  {
    if y < |lines| {
      RowPointsMeaning(lines[y], y, 0);
      GridPointsMeaning(lines, y + 1);
    }
  }

  function LabelLe(a: Point, b: Point): bool {
    a.digit <= b.digit
  }

  lemma LabelLeTotal()
    ensures TotalPreorder(LabelLe)
  {
  }

  /** `required_points`: every digit cell, sorted by its digit; any other
      character that is neither `#` nor `.` panics. */
  function RequiredPoints(lines: seq<string>): (r: Result<seq<Point>>)
    ensures r.Ok? <==> forall y, x :: 0 <= y < |lines| && 0 <= x < |lines[y]| && Marked(lines[y][x]) ==> IsDigit(lines[y][x])
    ensures r.Ok? ==> SortedBy(r.value, LabelLe)
    ensures r.Ok? ==> forall p :: p in r.value <==> LabelledAt(lines, p)
  {
    GridPointsMeaning(lines, 0);
    match GridPoints(lines, 0)
    case Panic(why) => Panic(why)
    case Ok(points) =>
      LabelLeTotal();
      var sorted := SortBy(points, LabelLe);
      assert forall p :: p in sorted <==> p in multiset(sorted);
      assert forall p :: p in points <==> p in multiset(points);
      Ok(sorted)
  }

  // ---------------------------------------------------------------------
  // Walks in the maze

  /** Every row as long as the first. */
  predicate Rectangular(m: seq<seq<bool>>) {
    forall y :: 0 <= y < |m| ==> |m[y]| == |m[0]|
  }

  predicate InBounds(m: seq<seq<bool>>, c: Cell) {
    c.1 < |m| && c.0 < |m[c.1]|
  }

  predicate Open(m: seq<seq<bool>>, c: Cell) {
    InBounds(m, c) && m[c.1][c.0]
  }

  /** One step of the search: up, down, left or right onto an open cell,
      with the bounds the program checks. */
  predicate Move(m: seq<seq<bool>>, c: Cell, n: Cell)
    requires |m| > 0
  {
    (c.1 > 0 && n.0 == c.0 && n.1 + 1 == c.1 && Open(m, n)) ||
    (c.1 < |m| - 1 && n.0 == c.0 && n.1 == c.1 + 1 && Open(m, n)) ||
    (c.0 > 0 && n.1 == c.1 && n.0 + 1 == c.0 && Open(m, n)) ||
    (c.0 < |m[0]| - 1 && n.1 == c.1 && n.0 == c.0 + 1 && Open(m, n))
  }

  /** The cells of a walk, each one step from the last. */
  ghost predicate IsWalk(m: seq<seq<bool>>, path: seq<Cell>) {
    |m| > 0 && |path| > 0 && forall k :: 0 < k < |path| ==> Move(m, path[k - 1], path[k])
  }

  /** b can be reached from a in exactly d steps. */
  ghost predicate WalkOfLength(m: seq<seq<bool>>, a: Cell, b: Cell, d: nat) {
    exists path :: IsWalk(m, path) && path[0] == a && path[|path| - 1] == b && |path| == d + 1
  }

  /** b can be reached from a at all. */
  ghost predicate Reachable(m: seq<seq<bool>>, a: Cell, b: Cell) {
    exists path :: IsWalk(m, path) && path[0] == a && path[|path| - 1] == b
  }

  /** What `distance_between` promises: 0 from a cell to itself; otherwise
      a walk of the length returned, or 0 when there is no walk at all. */
  ghost predicate DistanceSpec(m: seq<seq<bool>>, a: Cell, b: Cell, d: nat) {
    (a == b ==> d == 0) && (d > 0 ==> WalkOfLength(m, a, b, d)) && (d == 0 && a != b ==> !Reachable(m, a, b))
  }

  /** The four `if`s of the search, in order: up, down, left, right. */
  function Neighbours(m: seq<seq<bool>>, c: Cell): (r: seq<Cell>)
    requires Rectangular(m) && InBounds(m, c)
    ensures forall n :: n in r <==> Move(m, c, n)
  {
    var (x, y) := c;
    (if y > 0 && m[y - 1][x] then [(x, y - 1)] else []) +
    (if y < |m| - 1 && m[y + 1][x] then [(x, y + 1)] else []) +
    (if x > 0 && m[y][x - 1] then [(x - 1, y)] else []) +
    (if x < |m[0]| - 1 && m[y][x + 1] then [(x + 1, y)] else [])
  }

  /** Every cell of the map. */
  ghost function Cells(m: seq<seq<bool>>): set<Cell> {
    set y: nat, x: nat | y < |m| && x < |m[y]| :: (x, y)
  }

  /** A walk that starts in a set closed under steps stays in it. */
  lemma {:induction false} ClosedWalk(m: seq<seq<bool>>, seen: seq<Cell>, path: seq<Cell>)
    requires IsWalk(m, path) && path[0] in seen
    requires forall c, n :: c in seen && Move(m, c, n) ==> n in seen
    ensures path[|path| - 1] in seen
    decreases |path|
  {
    if |path| > 1 {
      var shorter := path[..|path| - 1];
      forall k | 0 < k < |shorter| ensures Move(m, shorter[k - 1], shorter[k]) {
        assert shorter[k - 1] == path[k - 1] && shorter[k] == path[k];
      }
      ClosedWalk(m, seen, shorter);
      assert Move(m, path[|path| - 2], path[|path| - 1]);
    }
  }

  /** Every queued cell lies on the map, with a walk from a to it whose
      length is its step count. */
  ghost predicate QueueOk(m: seq<seq<bool>>, a: Cell, cells: seq<Cell>, steps: seq<nat>, paths: seq<seq<Cell>>) {
    |steps| == |cells| && |paths| == |cells| &&
    forall k :: 0 <= k < |cells| ==>
      InBounds(m, cells[k]) && IsWalk(m, paths[k]) && paths[k][0] == a &&
      paths[k][|paths[k]| - 1] == cells[k] && |paths[k]| == steps[k] + 1
  }

  /** Every step from a seen cell leads to a seen or a queued cell. */
  ghost predicate Closed(m: seq<seq<bool>>, seen: seq<Cell>, cells: seq<Cell>)
    requires |m| > 0
  {
    forall c, n :: c in seen && Move(m, c, n) ==> n in seen || n in cells
  }

  /** The cells not seen yet: the measure of the search. */
  ghost function Unseen(m: seq<seq<bool>>, seen: seq<Cell>): set<Cell> {
    Cells(m) - set c | c in seen
  }

  lemma UnseenShrinks(m: seq<seq<bool>>, seen: seq<Cell>, c: Cell)
    requires InBounds(m, c) && c !in seen
    ensures |Unseen(m, seen + [c])| < |Unseen(m, seen)|
  {
    assert c in Unseen(m, seen);
    assert Unseen(m, seen + [c]) == Unseen(m, seen) - {c};
  }

  lemma QueuePop(m: seq<seq<bool>>, a: Cell, cells: seq<Cell>, steps: seq<nat>, paths: seq<seq<Cell>>)
    requires QueueOk(m, a, cells, steps, paths) && cells != []
    ensures QueueOk(m, a, cells[1..], steps[1..], paths[1..])
  {
    forall k | 0 <= k < |cells| - 1
      ensures cells[1..][k] == cells[k + 1] && steps[1..][k] == steps[k + 1] && paths[1..][k] == paths[k + 1]
    {
    }
  }

  /** Pushing the neighbours of c, reached by path in count steps. */
  lemma QueuePush(m: seq<seq<bool>>, a: Cell, cells: seq<Cell>, steps: seq<nat>, paths: seq<seq<Cell>>,
                  c: Cell, count: nat, path: seq<Cell>)
    requires Rectangular(m) && InBounds(m, c)
    requires QueueOk(m, a, cells, steps, paths)
    requires IsWalk(m, path) && path[0] == a && path[|path| - 1] == c && |path| == count + 1
    ensures var next := Neighbours(m, c);
      QueueOk(m, a, cells + next, steps + seq(|next|, _ => count + 1),
              paths + seq(|next|, k requires 0 <= k < |next| => path + [next[k]]))
  {
    var next := Neighbours(m, c);
    var cells' := cells + next;
    var steps' := steps + seq(|next|, _ => count + 1);
    var paths' := paths + seq(|next|, k requires 0 <= k < |next| => path + [next[k]]);
    forall k | |cells| <= k < |cells'|
      ensures InBounds(m, cells'[k]) && IsWalk(m, paths'[k]) && paths'[k][0] == a
      ensures paths'[k][|paths'[k]| - 1] == cells'[k] && |paths'[k]| == steps'[k] + 1
    {
      var n := next[k - |cells|];
      assert n in next && cells'[k] == n;
      assert paths'[k] == path + [n];
      assert Move(m, c, n);
      forall i | 0 < i < |path + [n]| ensures Move(m, (path + [n])[i - 1], (path + [n])[i]) {
        if i < |path| {
          assert (path + [n])[i - 1] == path[i - 1] && (path + [n])[i] == path[i];
        }
      }
    }
    forall k | 0 <= k < |cells|
      ensures cells'[k] == cells[k] && steps'[k] == steps[k] && paths'[k] == paths[k]
    {
    }
  }

  /** Popping a seen cell keeps the seen cells closed. */
  lemma ClosedPopSeen(m: seq<seq<bool>>, seen: seq<Cell>, cells: seq<Cell>)
    requires |m| > 0 && cells != [] && cells[0] in seen && Closed(m, seen, cells)
    ensures Closed(m, seen, cells[1..])
  {
    forall n | n in cells ensures n == cells[0] || n in cells[1..] {
      var k :| 0 <= k < |cells| && cells[k] == n;
      if k > 0 {
        assert cells[1..][k - 1] == n;
      }
    }
  }

  /** Marking the popped cell seen and queueing its neighbours keeps the
      seen cells closed. */
  lemma ClosedPopNew(m: seq<seq<bool>>, seen: seq<Cell>, cells: seq<Cell>)
    requires Rectangular(m) && cells != [] && InBounds(m, cells[0]) && Closed(m, seen, cells)
    ensures Closed(m, seen + [cells[0]], cells[1..] + Neighbours(m, cells[0]))
  {
    var c := cells[0];
    forall n | n in cells ensures n == c || n in cells[1..] {
      var k :| 0 <= k < |cells| && cells[k] == n;
      if k > 0 {
        assert cells[1..][k - 1] == n;
      }
    }
  }

  /** The invariant of the search loop: the queue is sound, every seen
      cell lies on the map, a has been seen or is queued, b has not been
      taken off the queue yet, and the seen cells are closed. When a is b
      the loop is still at its start. */
  ghost predicate SearchOk(m: seq<seq<bool>>, a: Cell, b: Cell, cells: seq<Cell>, steps: seq<nat>,
                           paths: seq<seq<Cell>>, seen: seq<Cell>) {
    Rectangular(m) && InBounds(m, a) && QueueOk(m, a, cells, steps, paths) &&
    (forall c :: c in seen ==> InBounds(m, c)) &&
    (a in seen || a in cells) && b !in seen &&
    (a == b ==> seen == [] && cells == [a] && steps == [0]) &&
    Closed(m, seen, cells)
  }

  lemma SearchStart(m: seq<seq<bool>>, a: Cell, b: Cell)
    requires Rectangular(m) && InBounds(m, a)
    ensures SearchOk(m, a, b, [a], [0], [[a]], [])
  {
  }

  lemma SearchSkip(m: seq<seq<bool>>, a: Cell, b: Cell, cells: seq<Cell>, steps: seq<nat>,
                   paths: seq<seq<Cell>>, seen: seq<Cell>)
    requires SearchOk(m, a, b, cells, steps, paths, seen) && cells != [] && cells[0] in seen
    ensures SearchOk(m, a, b, cells[1..], steps[1..], paths[1..], seen)
  {
    QueuePop(m, a, cells, steps, paths);
    ClosedPopSeen(m, seen, cells);
    if a !in seen {
      assert a in cells && a != cells[0];
      var k :| 0 <= k < |cells| && cells[k] == a;
      assert cells[1..][k - 1] == a;
    }
  }

  lemma SearchExpand(m: seq<seq<bool>>, a: Cell, b: Cell, cells: seq<Cell>, steps: seq<nat>,
                     paths: seq<seq<Cell>>, seen: seq<Cell>)
    requires SearchOk(m, a, b, cells, steps, paths, seen) && cells != [] && cells[0] !in seen && cells[0] != b
    ensures var next := Neighbours(m, cells[0]);
      SearchOk(m, a, b, cells[1..] + next, steps[1..] + seq(|next|, _ => steps[0] + 1),
               paths[1..] + seq(|next|, k requires 0 <= k < |next| => paths[0] + [next[k]]), seen + [cells[0]])
    ensures |Unseen(m, seen + [cells[0]])| < |Unseen(m, seen)|
  {
    var c := cells[0];
    QueuePop(m, a, cells, steps, paths);
    UnseenShrinks(m, seen, c);
    ClosedPopNew(m, seen, cells);
    QueuePush(m, a, cells[1..], steps[1..], paths[1..], c, steps[0], paths[0]);
    if a !in seen && a != c {
      var k :| 0 <= k < |cells| && cells[k] == a;
      assert cells[1..][k - 1] == a;
    }
  }

  lemma SearchFound(m: seq<seq<bool>>, a: Cell, b: Cell, cells: seq<Cell>, steps: seq<nat>,
                    paths: seq<seq<Cell>>, seen: seq<Cell>)
    requires SearchOk(m, a, b, cells, steps, paths, seen) && cells != [] && cells[0] == b
    ensures DistanceSpec(m, a, b, steps[0])
  {
    var path := paths[0];
    assert IsWalk(m, path) && path[0] == a && path[|path| - 1] == b && |path| == steps[0] + 1;
  }

  lemma SearchExhausted(m: seq<seq<bool>>, a: Cell, b: Cell, steps: seq<nat>, paths: seq<seq<Cell>>, seen: seq<Cell>)
    requires SearchOk(m, a, b, [], steps, paths, seen)
    ensures DistanceSpec(m, a, b, 0)
  {
    forall p | IsWalk(m, p) && p[0] == a && p[|p| - 1] == b
      ensures false
    {
      ClosedWalk(m, seen, p);
    }
  }

  /** `distance_between`: breadth-first from a until b is taken off the
      queue. The queue of `(x, y, steps)` is kept as its cells and its step
      counts side by side. */
  method Distance(m: seq<seq<bool>>, a: Cell, b: Cell) returns (d: nat)
    requires Rectangular(m) && InBounds(m, a)
    ensures DistanceSpec(m, a, b, d)
  {
    var cells: seq<Cell> := [a];
    var steps: seq<nat> := [0];
    var seenStates: seq<Cell> := [];
    ghost var paths: seq<seq<Cell>> := [[a]];
    SearchStart(m, a, b);
    while cells != []
      invariant SearchOk(m, a, b, cells, steps, paths, seenStates)
      decreases |Unseen(m, seenStates)|, |cells|
    {
      var c, count := cells[0], steps[0];
      if c in seenStates {
        SearchSkip(m, a, b, cells, steps, paths, seenStates);
        cells, steps, paths := cells[1..], steps[1..], paths[1..];
        continue;
      }
      ghost var before := seenStates;
      seenStates := seenStates + [c];
      if c == b {
        SearchFound(m, a, b, cells, steps, paths, before);
        return count;
      }
      SearchExpand(m, a, b, cells, steps, paths, before);
      var next := Neighbours(m, c);
      cells := cells[1..] + next;
      steps := steps[1..] + seq(|next|, _ => count + 1);
      paths := paths[1..] + seq(|next|, k requires 0 <= k < |next| => paths[0] + [next[k]]);
    }
    SearchExhausted(m, a, b, steps, paths, seenStates);
    d := 0;
  }

  // ---------------------------------------------------------------------
  // The edge table

  /** The keys the nested loops have inserted once row i has reached j. */
  predicate Inserted(e: (nat, nat), n: nat, i: nat, j: nat) {
    e.0 < n && e.1 < n && e.0 != e.1 &&
    (e.0 < i || e.1 < i || (e.0 == i && e.1 < j) || (e.1 == i && e.0 < j))
  }

  /** The table holds both directions of every pair of distinct points,
      the same distance each way, as the search measures it. */
  ghost predicate EdgesFit(m: seq<seq<bool>>, points: seq<Point>, edges: map<(nat, nat), nat>) {
    (forall e :: e in edges <==> e.0 < |points| && e.1 < |points| && e.0 != e.1) &&
    (forall i, j :: 0 <= i < j < |points| ==>
      edges[(i, j)] == edges[(j, i)] && DistanceSpec(m, Spot(points[i]), Spot(points[j]), edges[(i, j)]))
  }

  /** The loops' invariant: the keys inserted so far, each pair with the
      same distance both ways, as the search measures it. */
  ghost predicate FilledUpTo(m: seq<seq<bool>>, points: seq<Point>, edges: map<(nat, nat), nat>, i: nat, j: nat) {
    (forall e :: e in edges <==> Inserted(e, |points|, i, j)) &&
    (forall p, q :: 0 <= p < q < |points| && Inserted((p, q), |points|, i, j) ==>
      edges[(p, q)] == edges[(q, p)] && DistanceSpec(m, Spot(points[p]), Spot(points[q]), edges[(p, q)]))
  }

  lemma FillPair(m: seq<seq<bool>>, points: seq<Point>, edges: map<(nat, nat), nat>, i: nat, j: nat, d: nat)
    requires FilledUpTo(m, points, edges, i, j) && i < j < |points|
    requires DistanceSpec(m, Spot(points[i]), Spot(points[j]), d)
    ensures FilledUpTo(m, points, edges[(i, j) := d][(j, i) := d], i, j + 1)
  {
    var e' := edges[(i, j) := d][(j, i) := d];
    forall e ensures e in e' <==> Inserted(e, |points|, i, j + 1) {
      assert Inserted(e, |points|, i, j + 1) <==> Inserted(e, |points|, i, j) || e == (i, j) || e == (j, i);
    }
    forall p, q | 0 <= p < q < |points| && Inserted((p, q), |points|, i, j + 1)
      ensures e'[(p, q)] == e'[(q, p)] && DistanceSpec(m, Spot(points[p]), Spot(points[q]), e'[(p, q)])
    {
      if (p, q) != (i, j) {
        assert Inserted((p, q), |points|, i, j);
        assert e'[(p, q)] == edges[(p, q)] && e'[(q, p)] == edges[(q, p)];
      }
    }
  }

  lemma FillRow(m: seq<seq<bool>>, points: seq<Point>, edges: map<(nat, nat), nat>, i: nat)
    requires FilledUpTo(m, points, edges, i, |points|) && i < |points|
    ensures FilledUpTo(m, points, edges, i + 1, i + 2)
  {
    forall e ensures Inserted(e, |points|, i, |points|) <==> Inserted(e, |points|, i + 1, i + 2) {
    }
  }

  lemma FillDone(m: seq<seq<bool>>, points: seq<Point>, edges: map<(nat, nat), nat>)
    requires FilledUpTo(m, points, edges, |points|, |points| + 1)
    ensures EdgesFit(m, points, edges)
  {
  }

  /** The nested loops filling `edges`. */
  method EdgeTable(m: seq<seq<bool>>, points: seq<Point>) returns (edges: map<(nat, nat), nat>)
    requires Rectangular(m) && forall k :: 0 <= k < |points| ==> InBounds(m, Spot(points[k]))
    ensures EdgesFit(m, points, edges)
  {
    edges := map[];
    for i: nat := 0 to |points|
      invariant FilledUpTo(m, points, edges, i, i + 1)
    {
      for j: nat := i + 1 to |points|
        invariant FilledUpTo(m, points, edges, i, j)
      {
        var distance := Distance(m, Spot(points[i]), Spot(points[j]));
        FillPair(m, points, edges, i, j, distance);
        edges := edges[(i, j) := distance][(j, i) := distance];
      }
      FillRow(m, points, edges, i);
    }
    FillDone(m, points, edges);
  }

  // ---------------------------------------------------------------------
  // Tours

  /** The cost of the tour from `last` on through perm[i..], added to
      `cost`; a missing table entry panics at its `unwrap`. */
  function TourFrom(edges: map<(nat, nat), nat>, last: nat, perm: seq<nat>, i: nat, cost: nat): Result<nat>
    requires i <= |perm|
    decreases |perm| - i
  {
    if i == |perm| then Ok(cost)
    else if (last, perm[i]) !in edges then Panic(NonePanic)
    else TourFrom(edges, perm[i], perm, i + 1, cost + edges[(last, perm[i])])
  }

  /** The tour from point 0 through every point of perm in turn. */
  function Tour(edges: map<(nat, nat), nat>, perm: seq<nat>): Result<nat> {
    TourFrom(edges, 0, perm, 0, 0)
  }

  /** The `for i in 0..permutation.len()` loop adding up one tour. */
  method TourCost(edges: map<(nat, nat), nat>, perm: seq<nat>) returns (r: Result<nat>)
    ensures r == Tour(edges, perm)
  {
    var lastNode := 0;
    var cost := 0;
    for i := 0 to |perm|
      invariant TourFrom(edges, lastNode, perm, i, cost) == Tour(edges, perm)
    {
      if (lastNode, perm[i]) !in edges {
        return Panic(NonePanic);
      }
      cost := cost + edges[(lastNode, perm[i])];
      lastNode := perm[i];
    }
    r := Ok(cost);
  }

  predicate Distinct(s: seq<nat>) {
    forall k, l :: 0 <= k < l < |s| ==> s[k] != s[l]
  }

  /** An order in which to visit points 1 to n - 1. */
  predicate IsOrdering(q: seq<nat>, n: nat) {
    |q| + 1 == n && Distinct(q) && forall k :: 0 <= k < |q| ==> 1 <= q[k] < n
  }

  /** Every pair of distinct points below n is in the table. */
  predicate FullTable(edges: map<(nat, nat), nat>, n: nat) {
    forall i: nat, j: nat :: i < n && j < n && i != j ==> (i, j) in edges
  }

  /** With a full table a tour that never revisits its current point does
      not panic. */
  lemma {:induction false} TourFromTotal(edges: map<(nat, nat), nat>, n: nat, last: nat, perm: seq<nat>, i: nat, cost: nat)
    requires FullTable(edges, n) && i <= |perm| && last < n && Distinct(perm)
    requires forall k :: 0 <= k < |perm| ==> perm[k] < n
    requires forall k :: i <= k < |perm| ==> perm[k] != last
    ensures TourFrom(edges, last, perm, i, cost).Ok?
    decreases |perm| - i
  {
    if i < |perm| {
      TourFromTotal(edges, n, perm[i], perm, i + 1, cost + edges[(last, perm[i])]);
    }
  }

  /** No ordering panics on a full table: point 0 is never in it. */
  lemma TourTotal(edges: map<(nat, nat), nat>, n: nat, q: seq<nat>)
    requires FullTable(edges, n) && IsOrdering(q, n)
    ensures Tour(edges, q).Ok?
  {
    TourFromTotal(edges, n, 0, q, 0, 0);
  }

  // ---------------------------------------------------------------------
  // Every ordering

  function Without(s: seq<nat>, i: nat): (r: seq<nat>)
    requires i < |s|
    ensures |r| == |s| - 1
  {
    s[..i] + s[i + 1..]
  }

  function Concat(xss: seq<seq<seq<nat>>>): seq<seq<nat>>
    decreases |xss|
  {
    if xss == [] then [] else xss[0] + Concat(xss[1..])
  }

  lemma {:induction false} ConcatMember(xss: seq<seq<seq<nat>>>, x: seq<nat>)
    ensures x in Concat(xss) <==> exists i :: 0 <= i < |xss| && x in xss[i]
    decreases |xss|
  {
    if xss != [] {
      ConcatMember(xss[1..], x);
      assert forall i :: 1 <= i < |xss| ==> xss[i] == xss[1..][i - 1];
      if x in Concat(xss[1..]) {
        var i :| 0 <= i < |xss[1..]| && x in xss[1..][i];
        assert x in xss[i + 1];
      }
    }
  }

  /** v put in front of each of ps. */
  function Prefixed(v: nat, ps: seq<seq<nat>>): (r: seq<seq<nat>>)
    ensures |r| == |ps|
  {
    seq(|ps|, k requires 0 <= k < |ps| => [v] + ps[k])
  }

  lemma PrefixedMember(v: nat, ps: seq<seq<nat>>, q: seq<nat>)
    ensures q in Prefixed(v, ps) <==> |q| > 0 && q[0] == v && q[1..] in ps
  {
    var r := Prefixed(v, ps);
    if q in r {
      var k :| 0 <= k < |r| && r[k] == q;
      assert r[k][1..] == ps[k];
    }
    if |q| > 0 && q[0] == v && q[1..] in ps {
      var k :| 0 <= k < |ps| && ps[k] == q[1..];
      assert r[k] == q;
    }
  }

  /** itertools' `permutations`, by its meaning: every order of the pool,
      each pool element in turn first. */
  function Orderings(pool: seq<nat>): seq<seq<nat>>
    decreases |pool|
  {
    if pool == [] then [[]]
    else Concat(seq(|pool|, i requires 0 <= i < |pool| => Prefixed(pool[i], Orderings(Without(pool, i)))))
  }

  /** All of the pool, each element once. */
  predicate ArrangementOf(q: seq<nat>, pool: seq<nat>) {
    |q| == |pool| && Distinct(q) && forall k :: 0 <= k < |q| ==> q[k] in pool
  }

  lemma WithoutMember(pool: seq<nat>, i: nat, v: nat)
    requires i < |pool| && Distinct(pool)
    ensures v in Without(pool, i) <==> v in pool && v != pool[i]
  {
    var w := Without(pool, i);
    assert forall k :: 0 <= k < i ==> w[k] == pool[k];
    assert forall k :: i <= k < |w| ==> w[k] == pool[k + 1];
    if v in pool && v != pool[i] {
      var k :| 0 <= k < |pool| && pool[k] == v;
      if k < i {
        assert w[k] == v;
      } else {
        assert w[k - 1] == v;
      }
    }
  }

  lemma WithoutDistinct(pool: seq<nat>, i: nat)
    requires i < |pool| && Distinct(pool)
    ensures Distinct(Without(pool, i))
  {
    var w := Without(pool, i);
    forall k, l | 0 <= k < l < |w| ensures w[k] != w[l] {
      var k' := if k < i then k else k + 1;
      var l' := if l < i then l else l + 1;
      assert w[k] == pool[k'] && w[l] == pool[l'];
    }
  }

  /** An order is listed exactly when it starts with some pool element
      and goes on with a listed order of the rest. */
  lemma OrderingsCons(pool: seq<nat>, q: seq<nat>)
    requires pool != []
    ensures q in Orderings(pool) <==>
      |q| > 0 && exists i :: 0 <= i < |pool| && q[0] == pool[i] && q[1..] in Orderings(Without(pool, i))
  {
    var parts := seq(|pool|, i requires 0 <= i < |pool| => Prefixed(pool[i], Orderings(Without(pool, i))));
    assert Orderings(pool) == Concat(parts);
    ConcatMember(parts, q);
    forall i | 0 <= i < |pool|
      ensures q in parts[i] <==> |q| > 0 && q[0] == pool[i] && q[1..] in Orderings(Without(pool, i))
    {
      PrefixedMember(pool[i], Orderings(Without(pool, i)), q);
    }
  }

  /** Taking the first element off an arrangement leaves an arrangement of
      the rest of the pool, and back. */
  lemma ArrangementCons(pool: seq<nat>, i: nat, q: seq<nat>)
    requires Distinct(pool) && i < |pool| && |q| > 0 && q[0] == pool[i]
    ensures ArrangementOf(q, pool) <==> ArrangementOf(q[1..], Without(pool, i))
  {
    var tail := q[1..];
    forall k | 0 <= k < |tail| ensures tail[k] == q[k + 1] {
    }
    forall v ensures v in Without(pool, i) <==> v in pool && v != pool[i] {
      WithoutMember(pool, i, v);
    }
    if ArrangementOf(q, pool) {
      assert forall k :: 0 <= k < |tail| ==> tail[k] != q[0];
    }
    if ArrangementOf(tail, Without(pool, i)) {
      forall k, l | 0 <= k < l < |q| ensures q[k] != q[l] {
        if k > 0 {
          assert q[k] == tail[k - 1];
        }
        assert q[l] == tail[l - 1];
      }
    }
  }

  /** Every listed order is an arrangement of the pool. */
  lemma {:induction false} OrderingsSound(pool: seq<nat>, q: seq<nat>)
    requires Distinct(pool) && q in Orderings(pool)
    ensures ArrangementOf(q, pool)
    decreases |pool|
  {
    if pool != [] {
      OrderingsCons(pool, q);
      var i :| 0 <= i < |pool| && q[0] == pool[i] && q[1..] in Orderings(Without(pool, i));
      WithoutDistinct(pool, i);
      OrderingsSound(Without(pool, i), q[1..]);
      ArrangementCons(pool, i, q);
    }
  }

  /** Every arrangement of the pool is listed. */
  lemma {:induction false} OrderingsComplete(pool: seq<nat>, q: seq<nat>)
    requires Distinct(pool) && ArrangementOf(q, pool)
    ensures q in Orderings(pool)
    decreases |pool|
  {
    if pool == [] {
      assert q == [];
    } else {
      assert q[0] in pool;
      var i :| 0 <= i < |pool| && pool[i] == q[0];
      ArrangementCons(pool, i, q);
      WithoutDistinct(pool, i);
      OrderingsComplete(Without(pool, i), q[1..]);
      OrderingsCons(pool, q);
    }
  }

  lemma {:induction false} OrderingsNonEmpty(pool: seq<nat>)
    ensures |Orderings(pool)| > 0
    decreases |pool|
  {
    if pool != [] {
      OrderingsNonEmpty(Without(pool, 0));
      var parts := seq(|pool|, i requires 0 <= i < |pool| => Prefixed(pool[i], Orderings(Without(pool, i))));
      var some := Orderings(Without(pool, 0))[0];
      assert [pool[0]] + some in parts[0] by {
        assert ([pool[0]] + some)[1..] == some;
        PrefixedMember(pool[0], Orderings(Without(pool, 0)), [pool[0]] + some);
      }
      ConcatMember(parts, [pool[0]] + some);
    }
  }

  /** The points 1 to n - 1, the range the tours permute. */
  function Range(lo: nat, hi: nat): (r: seq<nat>)
    ensures |r| == if lo <= hi then hi - lo else 0
    ensures forall v :: v in r <==> lo <= v < hi
  {
    var r := seq(if lo <= hi then hi - lo else 0, k => lo + k);
    forall v | lo <= v < hi ensures v in r {
      assert r[v - lo] == v;
    }
    r
  }

  /** An arrangement of 1 to n - 1 is an ordering, and back. */
  lemma OrderingIsArrangement(q: seq<nat>, n: nat)
    requires n > 0
    ensures IsOrdering(q, n) <==> ArrangementOf(q, Range(1, n))
  {
  }

  lemma RangeDistinct(lo: nat, hi: nat)
    ensures Distinct(Range(lo, hi))
  {
  }

  // ---------------------------------------------------------------------
  // The shortest tour

  /** The cheapest tour over all orderings: one ordering costs it, and no
      ordering costs less. */
  ghost predicate MinimalTour(edges: map<(nat, nat), nat>, n: nat, cost: nat) {
    (exists q :: IsOrdering(q, n) && Tour(edges, q) == Ok(cost)) &&
    (forall q :: IsOrdering(q, n) ==> Tour(edges, q).Ok? && cost <= Tour(edges, q).value)
  }

  /** The cheapest of the listed orderings is the cheapest of all of them. */
  lemma ListedMinimum(edges: map<(nat, nat), nat>, n: nat, at: nat, best: nat)
    requires n > 0 && at < |Orderings(Range(1, n))|
    requires Tour(edges, Orderings(Range(1, n))[at]) == Ok(best)
    requires forall l :: 0 <= l < |Orderings(Range(1, n))| ==>
      Tour(edges, Orderings(Range(1, n))[l]).Ok? && best <= Tour(edges, Orderings(Range(1, n))[l]).value
    ensures MinimalTour(edges, n, best)
  {
    var perms := Orderings(Range(1, n));
    RangeDistinct(1, n);
    OrderingsSound(Range(1, n), perms[at]);
    OrderingIsArrangement(perms[at], n);
    forall q | IsOrdering(q, n) ensures Tour(edges, q).Ok? && best <= Tour(edges, q).value {
      OrderingIsArrangement(q, n);
      OrderingsComplete(Range(1, n), q);
    }
  }

  /** A listed ordering is an ordering. */
  lemma ListedOrdering(n: nat, q: seq<nat>)
    requires n > 0 && q in Orderings(Range(1, n))
    ensures IsOrdering(q, n)
  {
    RangeDistinct(1, n);
    OrderingsSound(Range(1, n), q);
    OrderingIsArrangement(q, n);
  }

  /** `(1..n).permutations(n - 1).map(...).min().unwrap()`: `n - 1`
      underflows when there are no points; otherwise the cheapest tour, or
      the first panic of a tour. */
  method Shortest(edges: map<(nat, nat), nat>, n: nat) returns (r: Result<nat>)
    ensures n == 0 ==> r == Panic(SubtractPanic)
    ensures n > 0 && r.Ok? ==> MinimalTour(edges, n, r.value)
    ensures n > 0 && r.Panic? ==> exists q :: IsOrdering(q, n) && Tour(edges, q).Panic?
  {
    if n == 0 {
      return Panic(SubtractPanic);
    }
    OrderingsNonEmpty(Range(1, n));
    var at;
    r, at := Cheapest(edges, Orderings(Range(1, n)));
    if r.Panic? {
      ListedOrdering(n, Orderings(Range(1, n))[at]);
    } else {
      ListedMinimum(edges, n, at, r.value);
    }
  }

  /** `.map(...).min().unwrap()` over a list of orderings: the first tour
      that panics, or the cheapest tour and where it is. */
  method Cheapest(edges: map<(nat, nat), nat>, perms: seq<seq<nat>>) returns (r: Result<nat>, at: nat)
    requires perms != []
    ensures at < |perms|
    ensures r.Panic? ==> Tour(edges, perms[at]).Panic?
    ensures r.Ok? ==> Tour(edges, perms[at]) == Ok(r.value)
    ensures r.Ok? ==> forall l :: 0 <= l < |perms| ==> Tour(edges, perms[l]).Ok? && r.value <= Tour(edges, perms[l]).value
  {
    var best := 0;
    at := 0;
    for k: nat := 0 to |perms|
      invariant forall l :: 0 <= l < k ==> Tour(edges, perms[l]).Ok? && best <= Tour(edges, perms[l]).value
      invariant k > 0 ==> at < k && Tour(edges, perms[at]) == Ok(best)
    {
      var cost := TourCost(edges, perms[k]);
      if cost.Panic? {
        return Panic(cost.reason), k;
      }
      if k == 0 || cost.value < best {
        best := cost.value;
        at := k;
      }
    }
    r := Ok(best);
  }

  /** The cheapest tour, for the table the search builds. */
  ghost predicate ShortestTour(m: seq<seq<bool>>, points: seq<Point>, cost: nat) {
    exists edges :: EdgesFit(m, points, edges) && MinimalTour(edges, |points|, cost)
  }

  /** `main` on a rectangular map: the points, the table, and the cheapest
      tour from point 0. */
  method Solve(lines: seq<string>) returns (r: Result<nat>)
    requires forall y :: 0 <= y < |lines| ==> |lines[y]| == |lines[0]|
    ensures r.Ok? <==> RequiredPoints(lines).Ok? && |RequiredPoints(lines).value| > 0
    ensures r.Ok? ==> ShortestTour(OpenMap(lines), RequiredPoints(lines).value, r.value)
  {
    var m := OpenMap(lines);
    var required := RequiredPoints(lines);
    if required.Panic? {
      return Panic(required.reason);
    }
    var points := required.value;
    forall k | 0 <= k < |points| ensures InBounds(m, Spot(points[k])) {
      assert points[k] in points;
    }
    var edges := EdgeTable(m, points);
    assert FullTable(edges, |points|);
    r := Shortest(edges, |points|);
    if r.Panic? && |points| > 0 {
      var q :| IsOrdering(q, |points|) && Tour(edges, q).Panic?;
      TourTotal(edges, |points|, q);
    }
  }
}
