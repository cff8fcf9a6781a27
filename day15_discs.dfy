/** day15: discs that spin one position per second. A capsule dropped at
    time t reaches disc i (counting from 1) at time t + i, and passes when
    that disc is at position 0. The program jumps t ahead by the largest
    wait any disc still needs, until every disc lines up. */
module Discs {
  import opened Common
  import opened Text
  import opened Modular

  /** `(offset, positions)`: the disc is at position 0 when
      `(offset + t) % positions == 0`. */
  type Disc = (nat, nat)

  /** `to_disc`: token 11 (`4.`) less its trailing dots is the start
      position, token 3 the number of positions; the offset adds the disc's
      index plus one. Token 11 is read first. */
  function ToDisc(index: nat, line: string): (r: Result<Disc>)
    ensures r.Ok? <==> DiscLine(line).Ok?
    ensures r.Ok? ==> r.value == (index + 1 + DiscLine(line).value.0, DiscLine(line).value.1)
  {
    match DiscLine(line)
    case Panic(why) => Panic(why)
    case Ok((start, positions)) =>
      var d: Disc := (index + 1 + start, positions);
      Ok(d)
  }

  /** The start position and the number of positions a line gives. */
  function DiscLine(line: string): Result<(nat, nat)> {
    var tokens := SplitWhitespace(line);
    if |tokens| <= 11 then Panic("index out of bounds")
    else
      match ParseUsize(TrimEndMatches(tokens[11], "."))
      case None => Panic("called `Result::unwrap()` on an `Err` value")
      case Some(start) =>
        match UsizeAt(tokens, 3)
        case Panic(why) => Panic(why)
        case Ok(positions) => Ok((start, positions))
  }

  /** `lines.iter().enumerate().map(to_disc).collect_vec()`: the first bad
      line panics; otherwise line i becomes `to_disc(i, line)`. */
  function ParseDiscs(lines: seq<string>): (r: Result<seq<Disc>>)
    ensures r.Ok? <==> forall i :: 0 <= i < |lines| ==> ToDisc(i, lines[i]).Ok?
    ensures r.Ok? ==> |r.value| == |lines|
    ensures r.Ok? ==> forall i :: 0 <= i < |lines| ==> ToDisc(i, lines[i]) == Ok(r.value[i])
  {
    var parse: (nat, string) -> Result<Disc> := ToDisc;
    var r := Enumerated(lines, 0, parse);
    assert forall i :: 0 <= i < |lines| ==> parse(0 + i, lines[i]) == ToDisc(i, lines[i]);
    r
  }

  /** `enumerate().map(f).collect()` over the lines from index `start` on:
      the first line f rejects panics; otherwise line i becomes
      `f(start + i, line)`. */
  function Enumerated<T>(lines: seq<string>, start: nat, f: (nat, string) -> Result<T>): (r: Result<seq<T>>)
    ensures r.Ok? <==> forall i :: 0 <= i < |lines| ==> f(start + i, lines[i]).Ok?
    ensures r.Ok? ==> |r.value| == |lines|
    ensures r.Ok? ==> forall i :: 0 <= i < |lines| ==> f(start + i, lines[i]) == Ok(r.value[i])
    decreases |lines|
  {
    if lines == [] then Ok([])
    else
      match f(start, lines[0])
      case Panic(why) => Panic(why)
      case Ok(first) =>
        match Enumerated(lines[1..], start + 1, f)
        case Panic(why) =>
          assert forall i :: 1 <= i < |lines| ==> lines[1..][i - 1] == lines[i] && start + 1 + (i - 1) == start + i;
          Panic(why)
        case Ok(rest) =>
          assert forall i :: 1 <= i < |lines| ==> lines[1..][i - 1] == lines[i] && start + 1 + (i - 1) == start + i;
          Ok([first] + rest)
  }

  predicate AllPositive(discs: seq<Disc>) {
    forall i :: 0 <= i < |discs| ==> discs[i].1 > 0
  }

  /** Every disc is at position 0 when the capsule reaches it: the negation
      of the `any` test. */
  predicate Aligned(discs: seq<Disc>, t: nat)
    requires AllPositive(discs)
  {
    forall i :: 0 <= i < |discs| ==> (discs[i].0 + t) % discs[i].1 == 0
  }

  /** The seconds disc d still needs to reach position 0, a full turn when
      it is there already: the key of `max_by_key`. */
  function Wait(d: Disc, t: nat): (w: nat)
    requires d.1 > 0
    ensures 1 <= w <= d.1
  {
    d.1 - (d.0 + t) % d.1
  }

  /** The largest wait: the jump of `t += furthest.1 - ...`, the same
      whichever of several furthest discs `max_by_key` picks. */
  function Jump(discs: seq<Disc>, t: nat): (j: nat)
    requires discs != [] && AllPositive(discs)
    ensures forall i :: 0 <= i < |discs| ==> Wait(discs[i], t) <= j
    ensures exists i :: 0 <= i < |discs| && Wait(discs[i], t) == j
    decreases |discs|
  {
    if |discs| == 1 then Wait(discs[0], t)
    else
      var rest := Jump(discs[1..], t);
      assert forall i :: 1 <= i < |discs| ==> discs[i] == discs[1..][i - 1];
      if Wait(discs[0], t) >= rest then Wait(discs[0], t) else rest
  }

  /** The `loop` from time t, with at most `fuel` jumps. */
  function Search(discs: seq<Disc>, t: nat, fuel: nat): Option<nat>
    requires AllPositive(discs)
    decreases fuel
  {
    if Aligned(discs, t) then Some(t)
    else if fuel == 0 then None
    else Search(discs, t + Jump(discs, t), fuel - 1)
  }

  /** The program's answer: a disc with 0 positions panics in the first
      round, at the `%` of `any` or of `max_by_key`. */
  function Answer(lines: seq<string>, fuel: nat): Result<Option<nat>> {
    match ParseDiscs(lines)
    case Panic(why) => Panic(why)
    case Ok(discs) =>
      if !AllPositive(discs) then Panic("attempt to calculate the remainder with a divisor of zero")
      else Ok(Search(discs, 0, fuel))
  }

  /** `main`: t starts at 0 and jumps until every disc lines up. */
  method Solve(lines: seq<string>, fuel: nat) returns (r: Result<Option<nat>>)
    ensures r == Answer(lines, fuel)
  {
    var parsed := ParseDiscs(lines);
    if parsed.Panic? {
      return Panic(parsed.reason);
    }
    var discs := parsed.value;
    if !AllPositive(discs) {
      return Panic("attempt to calculate the remainder with a divisor of zero");
    }
    var t := Align(discs, fuel);
    r := Ok(t);
  }

  /** The `loop`: t starts at 0 and jumps until every disc lines up. */
  method Align(discs: seq<Disc>, fuel: nat) returns (r: Option<nat>)
    requires AllPositive(discs)
    ensures r == Search(discs, 0, fuel)
  {
    var t: nat := 0;
    var left := fuel;
    while !Aligned(discs, t)
      invariant Search(discs, t, left) == Search(discs, 0, fuel)
      decreases left
    {
      if left == 0 {
        return None;
      }
      var jump := Jump(discs, t);
      assert Search(discs, t, left) == Search(discs, t + jump, left - 1);
      t := t + jump;
      left := left - 1;
    }
    r := Some(t);
  }


  // ---------------------------------------------------------------------
  // Properties

  /** Waiting less than the jump leaves the furthest disc short of
      position 0, so no time strictly inside a jump lines up every disc. */
  lemma JumpSkipsNothing(discs: seq<Disc>, t: nat, k: nat)
    requires discs != [] && AllPositive(discs)
    requires 0 < k < Jump(discs, t)
    ensures !Aligned(discs, t + k)
  {
    var i :| 0 <= i < |discs| && Wait(discs[i], t) == Jump(discs, t);
    ModAddSmall(discs[i].0 + t, k, discs[i].1);
    assert discs[i].0 + (t + k) == discs[i].0 + t + k;
  }

  /** A jump skips no aligned time, so the least aligned time after the
      jump is the least one from t. */
  lemma StepLeast(discs: seq<Disc>, t: nat, s: nat)
    requires discs != [] && AllPositive(discs) && !Aligned(discs, t)
    requires forall u :: t + Jump(discs, t) <= u < s ==> !Aligned(discs, u)
    ensures forall u :: t <= u < s ==> !Aligned(discs, u)
  {
    forall u | t < u < t + Jump(discs, t) ensures !Aligned(discs, u) {
      JumpSkipsNothing(discs, t, u - t);
    }
  }

  /** The reported time lines up every disc, is at least the start, and no
      earlier time from the start lines them up: it is the least one. */
  lemma {:induction false} SearchLeast(discs: seq<Disc>, t: nat, fuel: nat)
    requires AllPositive(discs) && Search(discs, t, fuel).Some?
    ensures var s := Search(discs, t, fuel).value;
      t <= s && Aligned(discs, s) && forall u :: t <= u < s ==> !Aligned(discs, u)
    decreases fuel
  {
    if !Aligned(discs, t) {
      assert discs != [];
      assert Search(discs, t, fuel) == Search(discs, t + Jump(discs, t), fuel - 1);
      SearchLeast(discs, t + Jump(discs, t), fuel - 1);
      StepLeast(discs, t, Search(discs, t, fuel).value);
    }
  }

  /** The program's time lines up every disc and is the least such time. */
  lemma AnswerLeast(lines: seq<string>, fuel: nat)
    requires Answer(lines, fuel).Ok? && Answer(lines, fuel).value.Some?
    ensures var discs := ParseDiscs(lines).value;
      var s := Answer(lines, fuel).value.value;
      AllPositive(discs) && Aligned(discs, s) && forall u :: 0 <= u < s ==> !Aligned(discs, u)
  {
    SearchLeast(ParseDiscs(lines).value, 0, fuel);
  }

  /** Each round moves t forward by at least one second and by at most the
      largest number of positions. */
  lemma JumpBounds(discs: seq<Disc>, t: nat, i: nat)
    requires discs != [] && AllPositive(discs) && i < |discs|
    ensures 1 <= Jump(discs, t)
    ensures Jump(discs, t) >= discs[i].1 - (discs[i].0 + t) % discs[i].1
    ensures exists k :: 0 <= k < |discs| && Jump(discs, t) <= discs[k].1
  {
  }

  /** The sample from the puzzle: a disc of 5 positions at 4 and a disc of
      2 positions at 1 line up first at time 5. */
  lemma ExampleSample()
    ensures Search([(1 + 4, 5), (2 + 1, 2)], 0, 1) == Some(5)
  {
    var discs: seq<Disc> := [(5, 5), (3, 2)];
    assert (discs[1].0 + 0) % discs[1].1 != 0;
    assert Jump(discs, 0) == 5;
    assert Aligned(discs, 5);
  }
}
