/** day01: the walk through the city grid. Each instruction turns left or
    right and then walks a number of blocks, one block at a time; every
    block walked is remembered, and the first block reached a second time
    is Part 2. Part 1 is the taxicab distance of the end of the walk. */
module Taxicab {
  import opened Common
  import opened Text

  /** A position or a facing: the x and the y coordinate. */
  type Vec = (int, int)

  /** One of the four facings along an axis. */
  predicate IsAxisUnit(f: Vec) {
    (f.0 == 0 && (f.1 == 1 || f.1 == -1)) || (f.1 == 0 && (f.0 == 1 || f.0 == -1))
  }

  /** A quarter turn clockwise: `(facing.1, -facing.0)`. */
  function Right(f: Vec): Vec { (f.1, -f.0) }

  /** A quarter turn counter-clockwise: `(-facing.1, facing.0)`. */
  function Left(f: Vec): Vec { (-f.1, f.0) }

  /** The `match &direction[0..1]`: R and L turn, any other letter panics. */
  function Turn(f: Vec, c: char): (r: Option<Vec>)
    ensures r.Some? <==> c == 'R' || c == 'L'
    ensures r.Some? && IsAxisUnit(f) ==> IsAxisUnit(r.value)
    ensures r.Some? && IsAxisUnit(f) ==> r.value != f && r.value != (-f.0, -f.1)
  {
    if c == 'R' then Some(Right(f))
    else if c == 'L' then Some(Left(f))
    else None
  }

  function Abs(x: int): nat { if x < 0 then -x else x }

  predicate InI32(x: int) { I32_MIN <= x <= I32_MAX }

  /** `p.0.abs() + p.1.abs()` on `i32`: `abs` of `i32::MIN` and a sum past
      `i32::MAX` overflow. */
  function TaxicabI32(p: Vec): (r: Result<int>)
    ensures r.Ok? <==> p.0 != I32_MIN && p.1 != I32_MIN && Abs(p.0) + Abs(p.1) <= I32_MAX
    ensures r.Ok? ==> r.value == Abs(p.0) + Abs(p.1)
  {
    if p.0 == I32_MIN || p.1 == I32_MIN then Panic("attempt to negate with overflow")
    else if Abs(p.0) + Abs(p.1) > I32_MAX then Panic("attempt to add with overflow")
    else Ok(Abs(p.0) + Abs(p.1))
  }

  /** The fold's accumulator: the facing, the position and `(visited,
      revisited)`. */
  datatype Walker = Walker(facing: Vec, location: Vec, visited: seq<Vec>, revisited: Option<Vec>)

  /** Facing north at the origin; the origin itself is not in `visited`. */
  const Start: Walker := Walker((0, 1), (0, 0), [], None)

  /** One pass of the inner `for`: move one block (each coordinate an `i32`
      addition), note the first revisit (whose distance is printed, so it
      must not overflow) and remember the block. */
  function Step(w: Walker): Result<Walker> {
    var x := w.location.0 + w.facing.0;
    if !InI32(x) then Panic("attempt to add with overflow")
    else
      var y := w.location.1 + w.facing.1;
      if !InI32(y) then Panic("attempt to add with overflow")
      else if w.revisited.None? && (x, y) in w.visited then
        match TaxicabI32((x, y))
        case Panic(why) => Panic(why)
        case Ok(_) => Ok(Walker(w.facing, (x, y), w.visited + [(x, y)], Some((x, y))))
      else Ok(Walker(w.facing, (x, y), w.visited + [(x, y)], w.revisited))
  }

  /** `for _ in 0..movement`: n blocks in a row. */
  function March(w: Walker, n: nat): Result<Walker>
    decreases n
  {
    if n == 0 then Ok(w)
    else
      match Step(w)
      case Panic(why) => Panic(why)
      case Ok(next) => March(next, n - 1)
  }

  /** The number of blocks `0..movement` walks: none for a negative one. */
  function Blocks(movement: int): nat { if movement < 0 then 0 else movement }

  /** The fold's closure on one instruction: the first letter turns, the
      rest is an `i32` distance. */
  function Follow(w: Walker, direction: string): Result<Walker> {
    if direction == [] then Panic("byte index 1 is out of range of ``")
    else
      match Turn(w.facing, direction[0])
      case None => Panic("Unexpected direction")
      case Some(f) =>
        match ParseI32(direction[1..])
        case None => Panic("called `Result::unwrap()` on an `Err` value")
        case Some(movement) => March(w.(facing := f), Blocks(movement))
  }

  /** The fold over the instructions, the first panic stopping it. */
  function Travel(w: Walker, directions: seq<string>): Result<Walker>
    decreases |directions|
  {
    if directions == [] then Ok(w)
    else
      match Follow(w, directions[0])
      case Panic(why) => Panic(why)
      case Ok(next) => Travel(next, directions[1..])
  }

  /** `trim().split(", ")`. */
  function Instructions(text: string): seq<string> {
    Split(Trim(text), ", ")
  }

  /** What the program prints: the first revisited block with its distance,
      when there is one, and the distance of the end of the walk. */
  datatype Report = Report(part2: Option<(Vec, int)>, part1: int)

  function Answer(text: string): Result<Report> {
    match Travel(Start, Instructions(text))
    case Panic(why) => Panic(why)
    case Ok(w) =>
      match TaxicabI32(w.location)
      case Panic(why) => Panic(why)
      case Ok(d) =>
        match w.revisited
        case None => Ok(Report(None, d))
        case Some(p) => Ok(Report(Some((p, Abs(p.0) + Abs(p.1))), d))
  }

  // ---------------------------------------------------------------------
  // The program's loops

  /** The inner `for` loop, on its own copies of the position, `visited`
      and `revisited`. */
  method Walk(w: Walker, movement: int) returns (r: Result<Walker>)
    ensures r == March(w, Blocks(movement))
  {
    var newLocation := w.location;
    var visited := w.visited;
    var revisited := w.revisited;
    var n := Blocks(movement);
    for k := 0 to n
      invariant March(Walker(w.facing, newLocation, visited, revisited), n - k) == March(w, n)
    {
      var here := Walker(w.facing, newLocation, visited, revisited);
      assert March(here, n - k) == match Step(here) case Panic(why) => Panic(why) case Ok(next) => March(next, n - k - 1);
      var x := newLocation.0 + w.facing.0;
      if !InI32(x) {
        return Panic("attempt to add with overflow");
      }
      var y := newLocation.1 + w.facing.1;
      if !InI32(y) {
        return Panic("attempt to add with overflow");
      }
      newLocation := (x, y);
      if revisited.None? && newLocation in visited {
        var distance := TaxicabI32(newLocation);
        if distance.Panic? {
          return Panic(distance.reason);
        }
        revisited := Some(newLocation);
      }
      visited := visited + [newLocation];
    }
    r := Ok(Walker(w.facing, newLocation, visited, revisited));
  }

  /** `main`: the fold over the instructions, then Part 1. */
  method Solve(text: string) returns (r: Result<Report>)
    ensures r == Answer(text)
  {
    var directions := Instructions(text);
    var acc := Start;
    for k := 0 to |directions|
      invariant Travel(acc, directions[k..]) == Travel(Start, directions)
    {
      assert directions[k..][1..] == directions[k + 1..];
      var direction := directions[k];
      if direction == [] {
        return Panic("byte index 1 is out of range of ``");
      }
      var facing := Turn(acc.facing, direction[0]);
      if facing.None? {
        return Panic("Unexpected direction");
      }
      var movement := ParseI32(direction[1..]);
      if movement.None? {
        return Panic("called `Result::unwrap()` on an `Err` value");
      }
      var walked := Walk(acc.(facing := facing.value), movement.value);
      if walked.Panic? {
        return Panic(walked.reason);
      }
      acc := walked.value;
    }
    assert directions[|directions|..] == [];
    var destination := TaxicabI32(acc.location);
    if destination.Panic? {
      return Panic(destination.reason);
    }
    match acc.revisited
    case None => r := Ok(Report(None, destination.value));
    case Some(p) => r := Ok(Report(Some((p, Abs(p.0) + Abs(p.1))), destination.value));
  }

  // ---------------------------------------------------------------------
  // Turning

  /** A right turn undone by a left one, and a full circle of right turns,
      give the facing back; a left turn is three right turns. */
  lemma TurnsRestore(f: Vec)
    ensures Left(Right(f)) == f && Right(Left(f)) == f
    ensures Right(Right(Right(Right(f)))) == f
    ensures Left(f) == Right(Right(Right(f)))
  {
  }

  // ---------------------------------------------------------------------
  // Walking blocks

  /** One block further from p in direction f. */
  function Next(p: Vec, f: Vec): Vec { (p.0 + f.0, p.1 + f.1) }

  /** The blocks from p in direction f, one to n steps away. */
  function Cells(p: Vec, f: Vec, n: nat): (r: seq<Vec>)
    ensures |r| == n
    decreases n
  {
    if n == 0 then [] else [Next(p, f)] + Cells(Next(p, f), f, n - 1)
  }

  /** The block k + 1 steps from p is p plus k + 1 times the facing. */
  lemma {:induction false} CellsAt(p: Vec, f: Vec, n: nat, k: nat)
    requires k < n
    ensures Cells(p, f, n)[k] == (p.0 + (k + 1) * f.0, p.1 + (k + 1) * f.1)
    decreases n
  {
    if k > 0 {
      CellsAt(Next(p, f), f, n - 1, k - 1);
      assert p.0 + f.0 + k * f.0 == p.0 + (k + 1) * f.0;
      assert p.1 + f.1 + k * f.1 == p.1 + (k + 1) * f.1;
    }
  }

  /** An instruction of n blocks keeps the facing, appends exactly the n
      blocks walked over to `visited`, ends on the last of them and keeps a
      revisit found earlier. */
  lemma {:induction false} MarchMoves(w: Walker, n: nat)
    requires March(w, n).Ok?
    ensures var e := March(w, n).value;
      e.facing == w.facing &&
      e.visited == w.visited + Cells(w.location, w.facing, n) &&
      (n == 0 ==> e.location == w.location) &&
      (n > 0 ==> e.location == Cells(w.location, w.facing, n)[n - 1]) &&
      (w.revisited.Some? ==> e.revisited == w.revisited)
    decreases n
  {
    if n > 0 {
      var next := Step(w).value;
      MarchMoves(next, n - 1);
      var b := Cells(next.location, w.facing, n - 1);
      assert Cells(w.location, w.facing, n) == [next.location] + b;
      assert w.visited + ([next.location] + b) == (w.visited + [next.location]) + b;
      if n > 1 {
        assert ([next.location] + b)[n - 1] == b[n - 2];
      }
    }
  }

  /** So the walk moves n times the facing. */
  lemma MarchDistance(w: Walker, n: nat)
    requires March(w, n).Ok? && n > 0
    ensures March(w, n).value.location == (w.location.0 + n * w.facing.0, w.location.1 + n * w.facing.1)
  {
    MarchMoves(w, n);
    CellsAt(w.location, w.facing, n, n - 1);
  }

  // ---------------------------------------------------------------------
  // The trail

  predicate Adjacent(p: Vec, q: Vec) {
    Abs(p.0 - q.0) + Abs(p.1 - q.1) == 1
  }

  /** The walk so far is a trail from the origin: each remembered block is
      next to the one before it (the first next to the origin), the last is
      where the walker stands, and the facing is along an axis. */
  ghost predicate Trail(w: Walker) {
    IsAxisUnit(w.facing) &&
    (w.visited == [] ==> w.location == (0, 0)) &&
    (w.visited != [] ==>
      Adjacent((0, 0), w.visited[0]) &&
      w.visited[|w.visited| - 1] == w.location &&
      forall i :: 0 < i < |w.visited| ==> Adjacent(w.visited[i - 1], w.visited[i]))
  }

  lemma StepTrail(w: Walker)
    requires Trail(w) && Step(w).Ok?
    ensures Trail(Step(w).value)
  {
    var e := Step(w).value;
    assert e.visited == w.visited + [e.location];
    assert Adjacent(w.location, e.location);
  }

  lemma {:induction false} MarchTrail(w: Walker, n: nat)
    requires Trail(w) && March(w, n).Ok?
    ensures Trail(March(w, n).value)
    decreases n
  {
    if n > 0 {
      StepTrail(w);
      MarchTrail(Step(w).value, n - 1);
    }
  }

  lemma {:induction false} TravelTrail(w: Walker, directions: seq<string>)
    requires Trail(w) && Travel(w, directions).Ok?
    ensures Trail(Travel(w, directions).value)
    decreases |directions|
  {
    if directions != [] {
      var d := directions[0];
      var f := Turn(w.facing, d[0]).value;
      MarchTrail(w.(facing := f), Blocks(ParseI32(d[1..]).value));
      TravelTrail(Follow(w, d).value, directions[1..]);
    }
  }

  // ---------------------------------------------------------------------
  // The first revisit

  /** Block j of the list was already remembered when it was reached. */
  predicate Repeats(visited: seq<Vec>, j: nat)
    requires j < |visited|
  {
    visited[j] in visited[..j]
  }

  /** `revisited` is the first block reached twice: None while every block
      is new, and once set, the block at the first repeat of `visited`. */
  ghost predicate FirstRepeat(visited: seq<Vec>, revisited: Option<Vec>) {
    if revisited.None? then forall j :: 0 <= j < |visited| ==> !Repeats(visited, j)
    else
      exists j :: 0 <= j < |visited| && visited[j] == revisited.value && Repeats(visited, j) && (forall i :: 0 <= i < j ==> !Repeats(visited, i))
  }

  /** Remembering block p after `visited` keeps `revisited`, unless it is
      still None and p was remembered before. */
  lemma PushFirstRepeat(visited: seq<Vec>, revisited: Option<Vec>, p: Vec)
    requires FirstRepeat(visited, revisited)
    ensures FirstRepeat(visited + [p], if revisited.None? && p in visited then Some(p) else revisited)
  {
    var v := visited + [p];
    var n := |visited|;
    assert v[..n] == visited;
    forall j | 0 <= j < n ensures Repeats(v, j) == Repeats(visited, j) {
      assert v[..j] == visited[..j];
    }
    if revisited.Some? {
      var j :| 0 <= j < n && visited[j] == revisited.value && Repeats(visited, j) &&
        forall i :: 0 <= i < j ==> !Repeats(visited, i);
      assert v[j] == revisited.value && Repeats(v, j);
    } else if p in visited {
      assert v[n] == p && Repeats(v, n);
    } else {
      assert !Repeats(v, n);
    }
  }

  lemma StepFirstRepeat(w: Walker)
    requires FirstRepeat(w.visited, w.revisited) && Step(w).Ok?
    ensures FirstRepeat(Step(w).value.visited, Step(w).value.revisited)
  {
    var e := Step(w).value;
    assert e.visited == w.visited + [e.location];
    assert e.revisited == if w.revisited.None? && e.location in w.visited then Some(e.location) else w.revisited;
    PushFirstRepeat(w.visited, w.revisited, e.location);
  }

  lemma {:induction false} MarchFirstRepeat(w: Walker, n: nat)
    requires FirstRepeat(w.visited, w.revisited) && March(w, n).Ok?
    ensures FirstRepeat(March(w, n).value.visited, March(w, n).value.revisited)
    decreases n
  {
    if n > 0 {
      StepFirstRepeat(w);
      MarchFirstRepeat(Step(w).value, n - 1);
    }
  }

  lemma {:induction false} TravelFirstRepeat(w: Walker, directions: seq<string>)
    requires FirstRepeat(w.visited, w.revisited) && Travel(w, directions).Ok?
    ensures FirstRepeat(Travel(w, directions).value.visited, Travel(w, directions).value.revisited)
    ensures w.revisited.Some? ==> Travel(w, directions).value.revisited == w.revisited
    decreases |directions|
  {
    if directions != [] {
      var d := directions[0];
      var f := Turn(w.facing, d[0]).value;
      MarchFirstRepeat(w.(facing := f), Blocks(ParseI32(d[1..]).value));
      MarchMoves(w.(facing := f), Blocks(ParseI32(d[1..]).value));
      TravelFirstRepeat(Follow(w, d).value, directions[1..]);
    }
  }

  /** What the program reports: Part 1 is the taxicab distance of a spot
      the trail ends on, and Part 2, when printed, is the first block of
      the trail reached a second time, with its distance. */
  lemma AnswerMeaning(text: string)
    requires Answer(text).Ok?
    ensures var w := Travel(Start, Instructions(text)).value;
      Trail(w) && FirstRepeat(w.visited, w.revisited) &&
      Answer(text).value.part1 == Abs(w.location.0) + Abs(w.location.1) &&
      (Answer(text).value.part2.None? <==> w.revisited.None?) &&
      (w.revisited.Some? ==> Answer(text).value.part2.value.0 == w.revisited.value)
  {
    TravelTrail(Start, Instructions(text));
    TravelFirstRepeat(Start, Instructions(text));
  }

  /** The puzzle's first sample: `R2, L3` ends at (2, 3), 5 blocks away,
      without revisiting a block. */
  lemma ExampleSample()
    ensures Answer("R2, L3") == Ok(Report(None, 5))
  {
    InstructionsSample();
    TravelSample();
    assert TaxicabI32((2, 3)) == Ok(5);
  }

  lemma InstructionsSample()
    ensures Instructions("R2, L3") == ["R2", "L3"]
  {
    var s := "R2, L3";
    assert !IsWhitespace(s[0]) && !IsWhitespace(s[|s| - 1]);
    assert Trim(s) == s;
    assert s[..2] == "R2" && s[2..4] == ", " && s[4..] == "L3";
    assert s[..2] != ", " && s[1..][..2] != ", " && s[1..][1..] == s[2..];
    assert IndexOf(s[2..], ", ") == Some(0);
    assert IndexOf(s[1..], ", ") == Some(1);
    assert IndexOf(s, ", ") == Some(2);
    assert SplitOnce(s, ", ") == Some(("R2", "L3"));
    assert "L3"[..2] != ", " && |"L3"[1..]| < 2;
    assert IndexOf("L3", ", ") == None;
    assert SplitOnce("L3", ", ") == None;
  }

  lemma TravelSample()
    ensures Travel(Start, ["R2", "L3"]) == Ok(Walker((0, 1), (2, 3), [(1, 0), (2, 0), (2, 1), (2, 2), (2, 3)], None))
  {
    var w1 := Walker((1, 0), (0, 0), [], None);
    var w2 := Walker((1, 0), (2, 0), [(1, 0), (2, 0)], None);
    var w3 := Walker((0, 1), (2, 0), [(1, 0), (2, 0)], None);
    var w4 := Walker((0, 1), (2, 3), [(1, 0), (2, 0), (2, 1), (2, 2), (2, 3)], None);
    assert "R2"[1..] == "2" && DigitsValue("2") == 2 && ParseI32("2") == Some(2);
    assert "L3"[1..] == "3" && DigitsValue("3") == 3 && ParseI32("3") == Some(3);
    assert Turn(Start.facing, 'R') == Some((1, 0));
    FirstLeg(w1);
    assert Follow(Start, "R2") == Ok(w2);
    assert Turn(w2.facing, 'L') == Some((0, 1));
    SecondLeg(w3);
    assert Follow(w2, "L3") == Ok(w4);
    assert ["R2", "L3"][1..] == ["L3"];
    assert ["L3"][1..] == [];
  }

  /** A step onto a block not remembered before. */
  lemma StepFresh(w: Walker)
    requires InI32(w.location.0 + w.facing.0) && InI32(w.location.1 + w.facing.1)
    requires Next(w.location, w.facing) !in w.visited
    ensures Step(w) == Ok(Walker(w.facing, Next(w.location, w.facing), w.visited + [Next(w.location, w.facing)], w.revisited))
  {
  }

  lemma FirstLeg(w: Walker)
    requires w == Walker((1, 0), (0, 0), [], None)
    ensures March(w, 2) == Ok(Walker((1, 0), (2, 0), [(1, 0), (2, 0)], None))
  {
    var a := Walker((1, 0), (1, 0), [(1, 0)], None);
    var b := Walker((1, 0), (2, 0), [(1, 0), (2, 0)], None);
    StepFresh(w);
    assert Next(w.location, w.facing) == (1, 0) && w.visited + [(1, 0)] == a.visited;
    assert Step(w) == Ok(a);
    StepFresh(a);
    assert Next(a.location, a.facing) == (2, 0) && a.visited + [(2, 0)] == b.visited;
    assert Step(a) == Ok(b);
  }

  lemma SecondLeg(w: Walker)
    requires w == Walker((0, 1), (2, 0), [(1, 0), (2, 0)], None)
    ensures March(w, 3) == Ok(Walker((0, 1), (2, 3), [(1, 0), (2, 0), (2, 1), (2, 2), (2, 3)], None))
  {
    var a := Walker((0, 1), (2, 1), [(1, 0), (2, 0), (2, 1)], None);
    var b := Walker((0, 1), (2, 2), [(1, 0), (2, 0), (2, 1), (2, 2)], None);
    var c := Walker((0, 1), (2, 3), [(1, 0), (2, 0), (2, 1), (2, 2), (2, 3)], None);
    StepFresh(w);
    assert Next(w.location, w.facing) == (2, 1) && w.visited + [(2, 1)] == a.visited;
    assert Step(w) == Ok(a);
    StepFresh(a);
    assert Next(a.location, a.facing) == (2, 2) && a.visited + [(2, 2)] == b.visited;
    assert Step(a) == Ok(b);
    StepFresh(b);
    assert Next(b.location, b.facing) == (2, 3) && b.visited + [(2, 3)] == c.visited;
    assert Step(b) == Ok(c);
  }
}
