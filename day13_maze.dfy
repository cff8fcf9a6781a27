/** day13: a maze of cubicles whose walls follow a formula in the
    office's favourite number. A best-first search from (1, 1) towards
    (31, 39) orders states by steps plus the taxicab distance left, and
    expands each position once. */
module Maze {
  import opened Common

  type Position = (nat, nat)

  // ---------------------------------------------------------------------
  // Walls

  /** `count_ones`: the number of 1 bits. */
  function PopCount(n: nat): nat
    decreases n
  {
    if n == 0 then 0 else n % 2 + PopCount(n / 2)
  }

  /** The formula of `is_wall`: x*x + 3*x + 2*x*y + y + y*y plus the
      favourite number. */
  function WallFormula(p: Position, input: nat): nat {
    p.0 * p.0 + p.0 * 3 + p.0 * p.1 * 2 + p.1 + p.1 * p.1 + input
  }

  /** `is_wall`: an odd number of 1 bits in the formula. */
  predicate IsWall(p: Position, input: nat) {
    PopCount(WallFormula(p, input)) % 2 == 1
  }

  /** Appending a bit adds it to the count. */
  lemma PopCountBit(n: nat, b: nat)
    requires b < 2
    ensures PopCount(2 * n + b) == PopCount(n) + b
  {
    assert (2 * n + b) / 2 == n && (2 * n + b) % 2 == b;
  }

  /** The top left corner of the puzzle's sample maze, favourite number
      10: `.#` over `..`. */
  lemma ExampleCorner()
    ensures !IsWall((0, 0), 10) && IsWall((1, 0), 10)
    ensures !IsWall((0, 1), 10) && !IsWall((1, 1), 10)
  {
    Ones10();
    assert WallFormula((0, 0), 10) == 10;
    Ones14();
    assert WallFormula((1, 0), 10) == 14;
    Ones12();
    assert WallFormula((0, 1), 10) == 12;
    Ones18();
    assert WallFormula((1, 1), 10) == 18;
  }

  lemma Ones10() ensures PopCount(10) == 2 {}
  lemma Ones14() ensures PopCount(14) == 3 {}
  lemma Ones12() ensures PopCount(12) == 2 {}
  lemma Ones18() ensures PopCount(18) == 2 {}

  // ---------------------------------------------------------------------
  // States and their order

  datatype State = State(steps: nat, position: Position, target: Position)

  function AbsDiff(a: nat, b: nat): nat {
    if a >= b then a - b else b - a
  }

  /** The A* priority: the steps taken plus the taxicab distance left. */
  function Priority(s: State): nat {
    s.steps + AbsDiff(s.position.0, s.target.0) + AbsDiff(s.position.1, s.target.1)
  }

  datatype Ordering = Less | Equal | Greater

  function Cmp(a: int, b: int): Ordering {
    if a < b then Less else if a == b then Equal else Greater
  }

  function Flip(o: Ordering): Ordering {
    match o
    case Less => Greater
    case Equal => Equal
    case Greater => Less
  }

  /** `partial_cmp` of `State`: the priority first, then the steps, then
      the position, the pair compared x first. */
  function Compare(a: State, b: State): Ordering {
    var byPriority := Cmp(Priority(a), Priority(b));
    if byPriority != Equal then byPriority
    else
      var bySteps := Cmp(a.steps, b.steps);
      if bySteps != Equal then bySteps
      else
        var byX := Cmp(a.position.0, b.position.0);
        if byX != Equal then byX else Cmp(a.position.1, b.position.1)
  }

  /** a comes no later than b. */
  predicate NoLater(a: State, b: State) {
    Compare(a, b) != Greater
  }

  /** Swapping the operands flips the outcome. */
  lemma CompareFlip(a: State, b: State)
    ensures Compare(b, a) == Flip(Compare(a, b))
  {
  }

  /** Two states compare equal exactly when their priority, steps and
      position agree; with the same target they are the same state. */
  lemma CompareEqual(a: State, b: State)
    ensures Compare(a, b) == Equal <==> Priority(a) == Priority(b) && a.steps == b.steps && a.position == b.position
    ensures Compare(a, b) == Equal && a.target == b.target ==> a == b
  {
  }

  /** The priority decides first: a lower priority comes first, and the
      state that comes first never has the higher priority; between equal
      priorities, fewer steps come first. */
  lemma ComparePriority(a: State, b: State)
    ensures Priority(a) < Priority(b) ==> Compare(a, b) == Less
    ensures Compare(a, b) == Less ==> Priority(a) <= Priority(b)
    ensures Priority(a) == Priority(b) && a.steps < b.steps ==> Compare(a, b) == Less
  {
  }

  /** The order is transitive. */
  lemma CompareTransitive(a: State, b: State, c: State)
    requires NoLater(a, b) && NoLater(b, c)
    ensures NoLater(a, c)
    ensures Compare(a, b) == Less || Compare(b, c) == Less ==> Compare(a, c) == Less
  {
  }

  /** The `Reverse` heap pops a state that comes no later than any other:
      a scan for the first such state. */
  method Earliest(states: seq<State>) returns (i: nat)
    requires states != []
    ensures i < |states| && forall j :: 0 <= j < |states| ==> NoLater(states[i], states[j])
  {
    i := 0;
    for k := 1 to |states|
      invariant i < k && forall j :: 0 <= j < k ==> NoLater(states[i], states[j])
    {
      if Compare(states[k], states[i]) == Less {
        forall j | 0 <= j < k ensures NoLater(states[k], states[j]) {
          CompareTransitive(states[k], states[i], states[j]);
        }
        i := k;
      } else {
        CompareFlip(states[k], states[i]);
      }
    }
  }

  // ---------------------------------------------------------------------
  // Neighbours

  /** p and q differ by exactly 1 in exactly one coordinate. */
  predicate Adjacent(p: Position, q: Position) {
    (p.0 == q.0 && (p.1 == q.1 + 1 || q.1 == p.1 + 1)) ||
    (p.1 == q.1 && (p.0 == q.0 + 1 || q.0 == p.0 + 1))
  }

  /** The four `if` blocks: with one more step, left if x > 0, up if
      y > 0, down, and right, each only onto an open cell. */
  function Neighbours(s: State, input: nat): (r: seq<State>)
    ensures |r| <= 4
    ensures forall n :: n in r ==>
      n.steps == s.steps + 1 && n.target == s.target && Adjacent(n.position, s.position) && !IsWall(n.position, input)
    ensures forall p :: Adjacent(p, s.position) && !IsWall(p, input) ==>
      State(s.steps + 1, p, s.target) in r
  {
    var next := s.(steps := s.steps + 1);
    var (x, y) := s.position;
    (if x > 0 && !IsWall((x - 1, y), input) then [next.(position := (x - 1, y))] else []) +
    (if y > 0 && !IsWall((x, y - 1), input) then [next.(position := (x, y - 1))] else []) +
    (if !IsWall((x, y + 1), input) then [next.(position := (x, y + 1))] else []) +
    (if !IsWall((x + 1, y), input) then [next.(position := (x + 1, y))] else [])
  }

  /** The distance left changes by one with each move, so a neighbour's
      priority is the state's or two more: the priority never drops along
      the search. */
  lemma NeighbourPriority(s: State, input: nat, n: State)
    requires n in Neighbours(s, input)
    ensures Priority(n) == Priority(s) || Priority(n) == Priority(s) + 2
  {
  }

  // ---------------------------------------------------------------------
  // The search loop

  /** The state of `main`'s loop: the heap's contents, in no particular
      order, and `positions_seen`. */
  class Search {
    var states: seq<State>
    var positionsSeen: seq<Position>
    const input: nat

    /** The heap holding the start at (1, 1), heading for (31, 39). */
    constructor (input: nat)
      ensures states == [State(0, (1, 1), (31, 39))] && positionsSeen == [] && this.input == input
    {
      states := [State(0, (1, 1), (31, 39))];
      positionsSeen := [];
      this.input := input;
    }

    /** One pass of the loop: pop the earliest state; skip it if its
        position was seen; otherwise remember the position, report the
        steps if it is the target, and push its neighbours. */
    method Step() returns (popped: State, found: Option<nat>)
      requires states != []
      modifies this
      ensures popped in old(states) && forall j :: 0 <= j < |old(states)| ==> NoLater(popped, old(states)[j])
      ensures popped.position in old(positionsSeen) ==>
        multiset(states) == multiset(old(states)) - multiset{popped} && positionsSeen == old(positionsSeen) && found == None
      ensures popped.position !in old(positionsSeen) ==>
        multiset(states) == multiset(old(states)) - multiset{popped} + multiset(Neighbours(popped, input)) &&
        positionsSeen == old(positionsSeen) + [popped.position] &&
        found == (if popped.position == popped.target then Some(popped.steps) else None)
    {
      var i := Earliest(states);
      popped := states[i];
      var rest := states[..i] + states[i + 1..];
      assert states == states[..i] + [popped] + states[i + 1..];
      assert multiset(rest) == multiset(states) - multiset{popped};
      if popped.position in positionsSeen {
        states := rest;
        found := None;
        return;
      }
      positionsSeen := positionsSeen + [popped.position];
      found := if popped.position == popped.target then Some(popped.steps) else None;
      states := rest + Neighbours(popped, input);
    }
  }
}
