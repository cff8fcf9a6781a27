/** day19: elves numbered 1 to n sit in a circle and steal presents in
    turn; an elf left without presents leaves the circle. In part 1 an elf
    takes from the elf on its left; in part 2 from the elf across the
    circle. Each part reports the elf that ends up with every present.

    A circle is listed as a sequence starting with the elf whose turn it
    is, the others following to its left. */
module Elves {
  import opened Common
  import opened Text
  import opened Modular

  /** t, t + s, t + 2s, ...: n elves of the original circle, s apart. */
  function Progression(t: nat, s: nat, n: nat): (p: seq<nat>)
    ensures |p| == n
  {
    seq(n, i requires 0 <= i < n => t + i * s)
  }

  // ---------------------------------------------------------------------
  // Part 1: take from the elf on the left

  /** One turn: the first elf takes the presents of the next one, who
      leaves, and the turn passes to the elf after that. */
  function Take(c: seq<nat>): (d: seq<nat>)
    requires |c| >= 2
    ensures |d| == |c| - 1
  {
    c[2..] + [c[0]]
  }

  /** The elf left with every present when turns go on until one remains. */
  function Winner(c: seq<nat>): nat
    requires |c| >= 1
    decreases |c|
  {
    if |c| == 1 then c[0] else Winner(Take(c))
  }

  /** The circle after j turns. */
  function Turns(c: seq<nat>, j: nat): (d: seq<nat>)
    requires |c| >= j + 1
    ensures |d| == |c| - j
    decreases j
  {
    if j == 0 then c else Take(Turns(c, j - 1))
  }

  /** `while remaining > 1`: every round of the loop is a full pass round
      the circle, which drops every other elf and doubles the distance
      `skip` between those left; an odd circle also ends with its last elf
      taking from the first, so the next pass starts `skip` further on. The
      counters are `i32`, so a doubling or a sum past `i32::MAX` panics;
      `remaining` is the `u32` input. */
  method FirstWinner(input: nat) returns (r: Result<nat>)
    requires input <= U32_MAX
    ensures input == 0 ==> r == Ok(1)
    ensures 1 <= input <= I32_MAX ==> r == Ok(Winner(Progression(1, 1, input)))
    ensures input > I32_MAX ==> r.Panic?
  {
    var nextTurn: nat := 1;
    var remaining: nat := input;
    var skip: nat := 1;
    ghost var k: nat := 0;
    PassStart(input);
    while remaining > 1
      invariant Pass(input, nextTurn, remaining, skip, k)
      invariant input >= 1 ==> Winner(Progression(nextTurn, skip, remaining)) == Winner(Progression(1, 1, input))
    {
      PassRoom(input, nextTurn, remaining, skip, k);
      if skip * 2 > I32_MAX {
        return Panic("attempt to multiply with overflow");
      }
      if remaining % 2 == 0 {
        PassEven(input, nextTurn, remaining, skip, k);
        EvenRound(nextTurn, skip, remaining);
        skip := skip * 2;
        remaining := remaining / 2;
      } else {
        PassOdd(input, nextTurn, remaining, skip, k);
        OddRound(nextTurn, skip, remaining);

        skip := skip * 2;
        if nextTurn + skip > I32_MAX {
          return Panic("attempt to add with overflow");
        }
        nextTurn := nextTurn + skip;
        remaining := remaining / 2;
      }
      k := k + 1;
    }
    PassEnd(input, nextTurn, remaining, skip, k);
    if input >= 1 {
      assert Progression(nextTurn, skip, remaining) == [nextTurn];
    }
    return Ok(nextTurn);
  }

  /** The bounds that hold between passes, where the circle left is the
      progression of `remaining` elves from `next_turn`, `skip` apart: its
      last elf is at most n; `skip` is 2^k; and for n past `i32::MAX`
      enough elves remain that `skip` must reach 2^31. */
  ghost predicate Pass(n: nat, t: nat, remaining: nat, skip: nat, k: nat) {
    (remaining == 0 <==> n == 0) &&
    (n == 0 ==> t == 1) &&
    remaining * skip <= n &&
    (n >= 1 ==> t + (remaining - 1) * skip <= n) &&
    skip == Pow2(k) && k <= 30 &&
    (n > I32_MAX ==> remaining >= Pow2(31 - k))
  }

  lemma PassStart(n: nat)
    ensures Pass(n, 1, n, 1, 0)
  {
    Pow2Of31();
  }

  /** The loop ends only on input up to `i32::MAX`. */
  lemma PassEnd(n: nat, t: nat, remaining: nat, skip: nat, k: nat)
    requires Pass(n, t, remaining, skip, k) && remaining <= 1
    ensures n <= I32_MAX
  {
    assert Pow2(31 - k) == 2 * Pow2(30 - k);
  }

  /** A pass over an even circle keeps the bounds. */
  lemma PassEven(n: nat, t: nat, remaining: nat, skip: nat, k: nat)
    requires Pass(n, t, remaining, skip, k) && remaining > 1 && skip * 2 <= I32_MAX
    requires remaining % 2 == 0
    ensures Pass(n, t, remaining / 2, skip * 2, k + 1)
  {
    HalfBounds(n, t, remaining, skip);
    PassPower(n, remaining, skip, k);
  }

  /** A pass over an odd circle keeps the bounds, and the new first elf
      is at most n. */
  lemma PassOdd(n: nat, t: nat, remaining: nat, skip: nat, k: nat)
    requires Pass(n, t, remaining, skip, k) && remaining > 1 && skip * 2 <= I32_MAX
    requires remaining % 2 == 1
    ensures t + skip * 2 <= n
    ensures Pass(n, t + skip * 2, remaining / 2, skip * 2, k + 1)
  {
    HalfBounds(n, t, remaining, skip);
    PassPower(n, remaining, skip, k);
  }

  /** The powers of two: a doubling that stays within `i32` leaves k below
      30, and on input past `i32::MAX` half the elves are still enough. */
  lemma PassPower(n: nat, remaining: nat, skip: nat, k: nat)
    requires skip == Pow2(k) && k <= 30 && skip * 2 <= I32_MAX
    requires n > I32_MAX ==> remaining >= Pow2(31 - k)
    ensures skip * 2 == Pow2(k + 1) && k + 1 <= 30
    ensures n > I32_MAX ==> remaining / 2 >= Pow2(31 - (k + 1))
  {
    Pow2Of31();
    if n > I32_MAX {
      assert Pow2(31 - k) == 2 * Pow2(30 - k);
    }
  }

  /** Before a pass over two or more elves, the doubled gap is at most n. */
  lemma PassRoom(n: nat, t: nat, remaining: nat, skip: nat, k: nat)
    requires Pass(n, t, remaining, skip, k) && remaining > 1
    ensures skip * 2 <= n
  {
    assert remaining * skip == (remaining - 2) * skip + skip * 2;
    MulNonNegative(remaining - 2, skip);
  }

  /** The arithmetic of a pass: halving the elves and doubling the gap
      keeps the last elf at most n. */
  lemma HalfBounds(n: nat, t: nat, remaining: nat, skip: nat)
    requires remaining >= 2 && remaining * skip <= n && t + (remaining - 1) * skip <= n
    ensures (remaining / 2) * (skip * 2) <= n
    ensures remaining % 2 == 0 ==> t + (remaining / 2 - 1) * (skip * 2) <= n
    ensures remaining % 2 == 1 ==> t + skip * 2 + (remaining / 2 - 1) * (skip * 2) <= n
    ensures remaining % 2 == 1 ==> t + skip * 2 <= n
  {
    var half := remaining / 2;
    assert remaining == 2 * half + remaining % 2;
    assert half * (skip * 2) == (2 * half) * skip;
    assert (remaining - 1) * skip == remaining * skip - skip;
    assert (half - 1) * (skip * 2) == half * (skip * 2) - skip * 2;
    if remaining % 2 == 1 {
      assert remaining * skip == (2 * half) * skip + skip;
      MulNonNegative(half - 1, skip * 2);
    }
  }

  // ---------------------------------------------------------------------
  // Part 2: take from the elf across the circle

  /** One turn: the first elf takes the presents of the elf across the
      circle, the nearer one on its left when two are equally far, who
      leaves; the turn passes to the next elf on the left. */
  function TakeAcross(c: seq<nat>): (d: seq<nat>)
    requires |c| >= 2
    ensures |d| == |c| - 1
  {
    var rest := c[..|c| / 2] + c[|c| / 2 + 1..];
    rest[1..] + [rest[0]]
  }

  function AcrossWinner(c: seq<nat>): nat
    requires |c| >= 1
    decreases |c|
  {
    if |c| == 1 then c[0] else AcrossWinner(TakeAcross(c))
  }

  /** The circle of the vector `elves` seen from the elf at `turn`. */
  function Rotate(elves: seq<nat>, turn: nat): (c: seq<nat>)
    requires turn <= |elves|
    ensures |c| == |elves|
  {
    elves[turn..] + elves[..turn]
  }

  predicate Increasing(s: seq<nat>) {
    forall i, j :: 0 <= i < j < |s| ==> s[i] < s[j]
  }

  /** The second loop: `elves` holds the elves left in number order and
      `turn_index` the place of the elf whose turn it is; `remove` shifts
      the later elves down, so the next elf is one place further on only
      when the removed elf came after the thief. `elves[0]` panics when
      the input is 0. */
  method AcrossWinnerOf(input: nat) returns (r: Result<nat>)
    requires input <= U32_MAX
    ensures input == 0 ==> r == Panic("index out of bounds")
    ensures input >= 1 ==> r == Ok(AcrossWinner(Progression(1, 1, input)))
  {
    var elves := Progression(1, 1, input);
    var turn: nat := 0;
    ghost var rounds: nat := 0;
    assert forall i :: 0 <= i < |elves| ==> elves[i] == i + 1;
    assert Rotate(elves, 0) == elves;
    while |elves| > 1
      invariant |elves| + rounds == input
      invariant input >= 1 ==> 1 <= |elves| && turn < |elves|
      invariant input == 0 ==> elves == [] && turn == 0
      invariant Increasing(elves)
      invariant forall i :: 0 <= i < |elves| ==> 1 <= elves[i] <= input
      invariant input >= 1 ==> AcrossWinner(Rotate(elves, turn)) == AcrossWinner(Progression(1, 1, input))
      decreases |elves|
    {
      elves, turn := Steal(elves, turn, input);
      rounds := rounds + 1;
    }
    if elves == [] {
      return Panic("index out of bounds");
    }
    assert Rotate(elves, turn) == elves;
    r := Ok(elves[0]);
  }

  /** One pass of the second loop's body. */
  method Steal(elves: seq<nat>, turn: nat, ghost n: nat) returns (rest: seq<nat>, next: nat)
    requires |elves| >= 2 && turn < |elves|
    requires Increasing(elves) && forall i :: 0 <= i < |elves| ==> 1 <= elves[i] <= n
    ensures |rest| == |elves| - 1 && next < |rest|
    ensures Increasing(rest) && forall i :: 0 <= i < |rest| ==> 1 <= rest[i] <= n
    ensures Rotate(rest, next) == TakeAcross(Rotate(elves, turn))
  {
    var index := (turn + |elves| / 2) % |elves|;
    StealStep(elves, turn);
    RemoveKeeps(elves, index, n, elves[..index] + elves[index + 1..]);
    rest := elves[..index] + elves[index + 1..];
    next := turn;
    if index > turn {
      next := next + 1;
    }
    next := next % |rest|;
  }

  // ---------------------------------------------------------------------
  // Properties

  lemma Pow2Of31()
    ensures Pow2(31) == I32_MAX + 1
  {
    assert Pow2(8) == 256;
    Pow2Add(8, 8);
    Pow2Add(8, 7);
    Pow2Add(16, 15);
  }

  lemma {:induction false} Pow2Add(a: nat, b: nat)
    ensures Pow2(a + b) == Pow2(a) * Pow2(b)
    decreases a
  {
    if a > 0 {
      Pow2Add(a - 1, b);
      assert Pow2(a + b) == 2 * Pow2(a - 1 + b);
    }
  }

  /** Dropping the first k elves of a progression. */
  lemma ProgressionDrop(t: nat, s: nat, n: nat, k: nat)
    requires k <= n
    ensures Progression(t, s, n)[k..] == Progression(t + k * s, s, n - k)
  {
    forall i | 0 <= i < n - k
      ensures Progression(t, s, n)[k..][i] == Progression(t + k * s, s, n - k)[i]
    {
      assert (k + i) * s == k * s + i * s;
    }
  }

  /** Adding the next elf to a progression. */
  lemma ProgressionPush(t: nat, s: nat, n: nat)
    ensures Progression(t, s, n) + [t + n * s] == Progression(t, s, n + 1)
  {
  }

  /** After j turns on a progression of m elves, the next 2j elves have
      gone through: the untouched rest comes first, then the j elves that
      took, now 2s apart. */
  lemma {:induction false} TurnsOnProgression(t: nat, s: nat, m: nat, j: nat)
    requires 1 <= m && 2 * j <= m
    ensures Turns(Progression(t, s, m), j) == Progression(t + 2 * j * s, s, m - 2 * j) + Progression(t, 2 * s, j)
    decreases j
  {
    if j > 0 {
      TurnsOnProgression(t, s, m, j - 1);
      var t0 := t + 2 * (j - 1) * s;
      var front := Progression(t0, s, m - 2 * (j - 1));
      var back := Progression(t, 2 * s, j - 1);
      assert (front + back)[2..] == front[2..] + back;
      ProgressionDrop(t0, s, m - 2 * (j - 1), 2);
      assert t0 + 2 * s == t + 2 * j * s;
      assert t0 == t + (j - 1) * (2 * s);
      ProgressionPush(t, 2 * s, j - 1);
    }
  }

  /** Turns do not change who wins. */
  lemma {:induction false} WinnerAfterTurns(c: seq<nat>, j: nat)
    requires |c| >= j + 1
    ensures Winner(Turns(c, j)) == Winner(c)
    decreases j
  {
    if j > 0 {
      WinnerAfterTurns(c, j - 1);
    }
  }

  /** A pass round an even circle leaves every other elf, starting with
      the first, which has the turn again. */
  lemma EvenRound(t: nat, s: nat, m: nat)
    requires m >= 2 && m % 2 == 0
    ensures Winner(Progression(t, s, m)) == Winner(Progression(t, s * 2, m / 2))
  {
    var k := m / 2;
    assert m == 2 * k;
    TurnsOnProgression(t, s, 2 * k, k);
    WinnerAfterTurns(Progression(t, s, 2 * k), k);
    assert Progression(t + 2 * k * s, s, 0) + Progression(t, 2 * s, k) == Progression(t, 2 * s, k);
  }

  /** A pass round an odd circle ends with its last elf taking from the
      first, so the next pass starts with the third. */
  lemma EvenOddSplit(t: nat, s: nat, k: nat)
    requires k >= 1
    ensures Take([t + 2 * k * s] + Progression(t, 2 * s, k)) == Progression(t + 2 * s, 2 * s, k)
  {
    var p := Progression(t, 2 * s, k);
    assert ([t + 2 * k * s] + p)[2..] == p[1..];
    ProgressionDrop(t, 2 * s, k, 1);
    ProgressionPush(t + 2 * s, 2 * s, k - 1);
    assert t + 2 * s + (k - 1) * (2 * s) == t + 2 * k * s;
  }

  lemma OddRound(t: nat, s: nat, m: nat)
    requires m >= 2 && m % 2 == 1
    ensures Winner(Progression(t, s, m)) == Winner(Progression(t + s * 2, s * 2, m / 2))
  {
    var k := m / 2;
    assert m == 2 * k + 1;
    var c := Progression(t, s, 2 * k + 1);
    TurnsOnProgression(t, s, 2 * k + 1, k);
    assert Progression(t + 2 * k * s, s, 1) == [t + 2 * k * s];
    EvenOddSplit(t, s, k);
    WinnerAfterTurns(c, k + 1);
  }

  /** Removing one elf keeps the rest in order and within 1 to n. */
  lemma RemoveKeeps(elves: seq<nat>, index: nat, n: nat, rest: seq<nat>)
    requires index < |elves| && Increasing(elves)
    requires forall i :: 0 <= i < |elves| ==> 1 <= elves[i] <= n
    requires rest == elves[..index] + elves[index + 1..]
    ensures Increasing(rest)
    ensures forall i :: 0 <= i < |rest| ==> 1 <= rest[i] <= n
  {
    assert forall i :: 0 <= i < |rest| ==> rest[i] == if i < index then elves[i] else elves[i + 1];
  }

  /** One turn of the second loop is one turn of the game: the index
      `(turn_index + len / 2) % len` is the elf across from the thief, and
      the new `turn_index` is the place of the next elf. */
  lemma StealStep(elves: seq<nat>, turn: nat)
    requires |elves| >= 2 && turn < |elves|
    ensures var index := (turn + |elves| / 2) % |elves|;
      var rest := elves[..index] + elves[index + 1..];
      var next := (if index > turn then turn + 1 else turn) % |rest|;
      Rotate(rest, next) == TakeAcross(Rotate(elves, turn))
  {
    var len := |elves|;
    ModSmall(turn + len / 2, len);
    if turn + len / 2 < len {
      AheadAt(elves, turn, turn + len / 2);
    } else {
      BehindAt(elves, turn, turn + len / 2 - len);
    }
  }

  lemma AheadAt(elves: seq<nat>, turn: nat, index: nat)
    requires index == turn + |elves| / 2 < |elves| && |elves| >= 2
    ensures Rotate(elves[..index] + elves[index + 1..], (turn + 1) % (|elves| - 1)) == TakeAcross(Rotate(elves, turn))
  {
    var a, cur, b, x, rc := elves[..turn], elves[turn], elves[turn + 1..index], elves[index], elves[index + 1..];
    assert elves == a + [cur] + b + [x] + rc;
    assert elves[..index] + elves[index + 1..] == a + [cur] + b + rc;
    StealAhead(a, cur, b, x, rc);
  }

  lemma BehindAt(elves: seq<nat>, turn: nat, index: nat)
    requires index + |elves| == turn + |elves| / 2 && turn < |elves| && |elves| >= 2
    ensures Rotate(elves[..index] + elves[index + 1..], turn % (|elves| - 1)) == TakeAcross(Rotate(elves, turn))
  {
    var a, x, b, cur, rc := elves[..index], elves[index], elves[index + 1..turn], elves[turn], elves[turn + 1..];
    assert elves == a + [x] + b + [cur] + rc;
    assert elves[..index] + elves[index + 1..] == a + b + [cur] + rc;
    StealBehind(a, x, b, cur, rc);
  }

  /** The elf across, x, sits after the thief in the vector. */
  lemma StealAhead(a: seq<nat>, cur: nat, b: seq<nat>, x: nat, rc: seq<nat>)
    requires |a + [cur] + b + [x] + rc| / 2 == 1 + |b|
    ensures var rest := a + [cur] + b + rc;
      Rotate(rest, (|a| + 1) % |rest|) == TakeAcross(Rotate(a + [cur] + b + [x] + rc, |a|))
  {
    var elves := a + [cur] + b + [x] + rc;
    var c := Rotate(elves, |a|);
    assert c == [cur] + b + [x] + rc + a;
    var h := |elves| / 2;
    assert c[..h] + c[h + 1..] == [cur] + b + rc + a;
    var target := b + rc + a + [cur];
    assert TakeAcross(c) == target;
    var rest := a + [cur] + b + rc;
    ModSmall(|a| + 1, |rest|);
    var next := (|a| + 1) % |rest|;
    if |a| + 1 < |rest| {
      assert rest[next..] == b + rc;
      assert rest[..next] == a + [cur];
    } else {
      assert next == 0 && b + rc == [];
    }
    assert Rotate(rest, next) == target;
  }

  /** The elf across, x, sits before the thief in the vector, which shifts
      the thief down one place. */
  lemma StealBehind(a: seq<nat>, x: nat, b: seq<nat>, cur: nat, rc: seq<nat>)
    requires |a + [x] + b + [cur] + rc| / 2 == 1 + |rc| + |a|
    ensures var rest := a + b + [cur] + rc;
      var turn := |a| + 1 + |b|;
      Rotate(rest, turn % |rest|) == TakeAcross(Rotate(a + [x] + b + [cur] + rc, turn))
  {
    BehindTaken(a, x, b, cur, rc);
    BehindNext(a, b, cur, rc);
  }

  lemma BehindTaken(a: seq<nat>, x: nat, b: seq<nat>, cur: nat, rc: seq<nat>)
    requires |a + [x] + b + [cur] + rc| / 2 == 1 + |rc| + |a|
    ensures TakeAcross(Rotate(a + [x] + b + [cur] + rc, |a| + 1 + |b|)) == rc + a + b + [cur]
  {
    var elves := a + [x] + b + [cur] + rc;
    var c := Rotate(elves, |a| + 1 + |b|);
    assert c == [cur] + rc + a + [x] + b;
    var h := |elves| / 2;
    assert c[..h] + c[h + 1..] == [cur] + rc + a + b;
  }

  lemma BehindNext(a: seq<nat>, b: seq<nat>, cur: nat, rc: seq<nat>)
    ensures var rest := a + b + [cur] + rc;
      Rotate(rest, (|a| + 1 + |b|) % |rest|) == rc + a + b + [cur]
  {
    var rest := a + b + [cur] + rc;
    var turn := |a| + 1 + |b|;
    ModSmall(turn, |rest|);
    var next := turn % |rest|;
    if turn < |rest| {
      assert rest[next..] == rc;
      assert rest[..next] == a + b + [cur];
    } else {
      assert next == 0 && rc == [];
    }
  }

  /** The puzzle's example: of five elves, elf 3 wins part 1 and elf 2
      part 2. */
  lemma ExampleFive()
    ensures Winner(Progression(1, 1, 5)) == 3
    ensures AcrossWinner(Progression(1, 1, 5)) == 2
  {
    assert Progression(1, 1, 5) == [1, 2, 3, 4, 5];
    assert Take([1, 2, 3, 4, 5]) == [3, 4, 5, 1];
    assert Take([3, 4, 5, 1]) == [5, 1, 3];
    assert Take([5, 1, 3]) == [3, 5];
    assert Take([3, 5]) == [3];
    assert TakeAcross([1, 2, 3, 4, 5]) == [2, 4, 5, 1];
    assert TakeAcross([2, 4, 5, 1]) == [4, 1, 2];
    assert TakeAcross([4, 1, 2]) == [2, 4];
    assert TakeAcross([2, 4]) == [2];
  }
}
