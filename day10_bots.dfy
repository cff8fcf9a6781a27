/** day10: bots that pass microchips. Each bot holds up to two chips; a bot
    holding two gives the lower one to its low destination and the higher
    one to its high destination, which are other bots or output bins. The
    program reports the bots that compare chips 17 and 61, and multiplies
    the chips that reach output bins 0, 1 and 2. */
module Bots {
  import opened Common
  import opened Text
  import opened Sorting

  const U64_MAX: nat := 0xFFFF_FFFF_FFFF_FFFF

  datatype Destination = ToBot(bot: nat) | ToOutput(bin: nat)

  /** A bot's two chip slots. */
  type Slots = (Option<nat>, Option<nat>)

  datatype Bot = Bot(number: nat, values: Slots, high: Destination, low: Destination)

  // ---------------------------------------------------------------------
  // Parsing

  /** `components[k].parse::<u32>().unwrap()`. */
  function U32At(tokens: seq<string>, k: nat): (r: Result<nat>)
    ensures r.Ok? <==> k < |tokens| && ParseU32(tokens[k]).Some?
    ensures r.Ok? ==> ParseU32(tokens[k]) == Some(r.value) && r.value <= U32_MAX
  {
    if k >= |tokens| then Panic("index out of bounds")
    else match ParseU32(tokens[k])
      case None => Panic("called `Result::unwrap()` on an `Err` value")
      case Some(n) => Ok(n)
  }

  /** A destination named by token k and numbered by token k + 1; any word
      but `bot` and `output` panics. */
  function DestAt(tokens: seq<string>, k: nat): (r: Result<Destination>)
    ensures r.Ok? ==> k + 1 < |tokens| && (tokens[k] == "bot" || tokens[k] == "output")
    ensures r.Ok? ==> r.value.ToBot? == (tokens[k] == "bot")
    ensures r.Ok? ==> Ok(if r.value.ToBot? then r.value.bot else r.value.bin) == U32At(tokens, k + 1)
    ensures k < |tokens| && tokens[k] != "bot" && tokens[k] != "output" ==> r == Panic("Unexpected destination")
  {
    if k >= |tokens| then Panic("index out of bounds")
    else if tokens[k] == "bot" then MapResult(U32At(tokens, k + 1), n => ToBot(n))
    else if tokens[k] == "output" then MapResult(U32At(tokens, k + 1), n => ToOutput(n))
    else Panic("Unexpected destination")
  }

  /** `to_bot`: the number is token 1, the low destination tokens 5 and 6,
      the high destination tokens 10 and 11, read in that order; the bot
      starts empty. */
  function ParseBot(line: string): (r: Result<Bot>)
    ensures var tokens := SplitWhitespace(line);
      r.Ok? <==> U32At(tokens, 1).Ok? && DestAt(tokens, 5).Ok? && DestAt(tokens, 10).Ok?
    ensures var tokens := SplitWhitespace(line);
      r.Ok? ==> r.value == Bot(U32At(tokens, 1).value, (None, None), DestAt(tokens, 10).value, DestAt(tokens, 5).value)
  {
    var tokens := SplitWhitespace(line);
    match U32At(tokens, 1)
    case Panic(why) => Panic(why)
    case Ok(number) =>
      match DestAt(tokens, 5)
      case Panic(why) => Panic(why)
      case Ok(low) =>
        match DestAt(tokens, 10)
        case Panic(why) => Panic(why)
        case Ok(high) => Ok(Bot(number, (None, None), high, low))
  }

  /** `filter(|line| line.starts_with(prefix))`. */
  function Filter(lines: seq<string>, prefix: string): (r: seq<string>)
    ensures forall x :: x in r <==> x in lines && prefix <= x
    ensures |r| <= |lines|
    decreases |lines|
  {
    if lines == [] then []
    else (if prefix <= lines[0] then [lines[0]] else []) + Filter(lines[1..], prefix)
  }

  predicate NumberLe(a: Bot, b: Bot) {
    a.number <= b.number
  }

  /** The `bot` lines as bots, sorted by number. */
  function ParseBots(lines: seq<string>): (r: Result<seq<Bot>>)
    ensures var botLines := Filter(lines, "bot");
      r.Ok? <==> forall k :: 0 <= k < |botLines| ==> ParseBot(botLines[k]).Ok?
    ensures r.Ok? ==> |r.value| == |Filter(lines, "bot")| && SortedBy(r.value, NumberLe)
  {
    match CollectAll(Filter(lines, "bot"), ParseBot)
    case Panic(why) => Panic(why)
    case Ok(bots) =>
      assert TotalPreorder(NumberLe);
      Ok(SortBy(bots, NumberLe))
  }

  /** The sorted bots are exactly the bots the `bot` lines describe. */
  lemma ParseBotsMembers(lines: seq<string>, b: Bot)
    requires ParseBots(lines).Ok?
    ensures b in ParseBots(lines).value <==> exists x :: x in lines && "bot" <= x && ParseBot(x) == Ok(b)
  {
    var botLines := Filter(lines, "bot");
    var bots := CollectAll(botLines, ParseBot).value;
    assert TotalPreorder(NumberLe);
    var sorted := SortBy(bots, NumberLe);
    assert b in sorted <==> b in bots by {
      assert b in sorted <==> b in multiset(sorted);
      assert b in bots <==> b in multiset(bots);
    }
    CollectedFrom(botLines, ParseBot, b);
    if exists x :: x in lines && "bot" <= x && ParseBot(x) == Ok(b) {
      var x :| x in lines && "bot" <= x && ParseBot(x) == Ok(b);
      assert x in botLines;
    }
  }

  // ---------------------------------------------------------------------
  // Chips

  /** The chips in a bot's slots. */
  function Held(values: Slots): multiset<nat> {
    (if values.0.Some? then multiset{values.0.value} else multiset{}) +
    (if values.1.Some? then multiset{values.1.value} else multiset{})
  }

  /** A chip goes into slot 0 when that is empty, else into slot 1; a bot
      with both slots full cannot take it. */
  function Give(values: Slots, chip: nat): (r: Option<Slots>)
    ensures r.None? <==> values.0.Some? && values.1.Some?
    ensures r.Some? ==> Held(r.value) == Held(values) + multiset{chip}
    ensures r.Some? && values.0.None? ==> r.value.0 == Some(chip) && r.value.1 == values.1
    ensures r.Some? && values.0.Some? ==> r.value.0 == values.0 && r.value.1 == Some(chip)
  {
    if values.0.None? then Some((Some(chip), values.1))
    else if values.1.None? then Some((values.0, Some(chip)))
    else None
  }

  /** `bots.iter_mut().find(|b| b.number == n)`: the first bot with that
      number. */
  function FindBot(bots: seq<Bot>, n: nat): (r: Option<nat>)
    ensures r.Some? ==> r.value < |bots| && bots[r.value].number == n
    ensures r.Some? ==> forall j :: 0 <= j < r.value ==> bots[j].number != n
    ensures r.None? ==> forall j :: 0 <= j < |bots| ==> bots[j].number != n
    decreases |bots|
  {
    if bots == [] then None
    else if bots[0].number == n then Some(0)
    else match FindBot(bots[1..], n)
      case None => None
      case Some(k) => Some(k + 1)
  }

  /** Only bot `k` changes, and it gains `chip`. */
  predicate Gained(bots: seq<Bot>, after: seq<Bot>, k: nat, chip: nat)
    requires k < |bots|
  {
    |after| == |bots| && Held(after[k].values) == Held(bots[k].values) + multiset{chip} &&
    after[k].number == bots[k].number && after[k].low == bots[k].low && after[k].high == bots[k].high &&
    forall j :: 0 <= j < |bots| && j != k ==> after[j] == bots[j]
  }

  /** A chip handed to bot n: the first bot with that number takes it as
      `Give` says; a missing bot or one with two chips panics. */
  function Deliver(bots: seq<Bot>, n: nat, chip: nat): (r: Result<seq<Bot>>)
    ensures r.Ok? <==> FindBot(bots, n).Some? && Give(bots[FindBot(bots, n).value].values, chip).Some?
    ensures r.Ok? ==> Gained(bots, r.value, FindBot(bots, n).value, chip)
    ensures r.Ok? ==> var k := FindBot(bots, n).value; r.value[k].values == Give(bots[k].values, chip).value
  {
    match FindBot(bots, n)
    case None => Panic("called `Option::unwrap()` on a `None` value")
    case Some(k) =>
      match Give(bots[k].values, chip)
      case None => Panic("Too many values")
      case Some(values) => Ok(bots[k := bots[k].(values := values)])
  }

  /** A `value` line: chip `components[1]` goes to bot `components[5]`.
      The number is only read while searching, so with no bots at all the
      search fails before any token is read; the chip is read after the
      slots are checked. */
  function ValueLine(bots: seq<Bot>, line: string): (r: Result<seq<Bot>>)
    ensures bots == [] ==> r.Panic?
    ensures r.Ok? ==> var tokens := SplitWhitespace(line);
      |tokens| > 5 && ParseU32(tokens[5]).Some? && FindBot(bots, ParseU32(tokens[5]).value).Some? &&
      U32At(tokens, 1).Ok? &&
      Gained(bots, r.value, FindBot(bots, ParseU32(tokens[5]).value).value, U32At(tokens, 1).value)
  {
    var tokens := SplitWhitespace(line);
    if bots == [] then Panic("called `Option::unwrap()` on a `None` value")
    else if |tokens| <= 5 then Panic("index out of bounds")
    else match ParseU32(tokens[5])
      case None => Panic("called `Result::unwrap()` on an `Err` value")
      case Some(n) =>
        match FindBot(bots, n)
        case None => Panic("called `Option::unwrap()` on a `None` value")
        case Some(k) =>
          if bots[k].values.0.Some? && bots[k].values.1.Some? then Panic("Bot has too many values")
          else match U32At(tokens, 1)
            case Panic(why) => Panic(why)
            case Ok(chip) => Ok(bots[k := bots[k].(values := Give(bots[k].values, chip).value)])
  }

  /** The `for_each` over the `value` lines, in order. */
  function AssignAll(bots: seq<Bot>, valueLines: seq<string>): (r: Result<seq<Bot>>)
    ensures r.Ok? ==> |r.value| == |bots|
    decreases |valueLines|
  {
    if valueLines == [] then Ok(bots)
    else match ValueLine(bots, valueLines[0])
      case Panic(why) => Panic(why)
      case Ok(next) => AssignAll(next, valueLines[1..])
  }

  /** The `for_each` itself: each line starting with `value` updates the
      bots in place. */
  method AssignValues(bots: seq<Bot>, lines: seq<string>) returns (r: Result<seq<Bot>>)
    ensures r == AssignAll(bots, Filter(lines, "value"))
  {
    var current := bots;
    for k := 0 to |lines|
      invariant AssignAll(current, Filter(lines[k..], "value")) == AssignAll(bots, Filter(lines, "value"))
    {
      FilterStep(lines, k, "value");
      if "value" <= lines[k] {
        var next := ValueLine(current, lines[k]);
        AssignStep(current, lines[k], Filter(lines[k + 1..], "value"));
        if next.Panic? {
          return Panic(next.reason);
        }
        current := next.value;
      }
    }
    assert lines[|lines|..] == [];
    r := Ok(current);
  }

  lemma FilterStep(lines: seq<string>, k: nat, prefix: string)
    requires k < |lines|
    ensures prefix <= lines[k] ==> Filter(lines[k..], prefix) == [lines[k]] + Filter(lines[k + 1..], prefix)
    ensures !(prefix <= lines[k]) ==> Filter(lines[k..], prefix) == Filter(lines[k + 1..], prefix)
  {
    assert lines[k..][1..] == lines[k + 1..];
    assert [] + Filter(lines[k + 1..], prefix) == Filter(lines[k + 1..], prefix);
  }

  lemma AssignStep(bots: seq<Bot>, line: string, rest: seq<string>)
    ensures ValueLine(bots, line).Panic? ==> AssignAll(bots, [line] + rest) == Panic(ValueLine(bots, line).reason)
    ensures ValueLine(bots, line).Ok? ==> AssignAll(bots, [line] + rest) == AssignAll(ValueLine(bots, line).value, rest)
  {
    assert ([line] + rest)[1..] == rest;
  }

  // ---------------------------------------------------------------------
  // Processing

  /** The processing state: the bots, the chips that reached output bins
      0 to 2 in order (`part2` is their product and `part2_count` their
      number), and the bot numbers printed for part 1. */
  datatype Machine = Machine(bots: seq<Bot>, binned: seq<nat>, part1: seq<nat>)

  /** After a step the machine goes on, stops at `break 'processing`, or
      panics. */
  datatype Step = Go(state: Machine) | Stop(state: Machine) | Fail(reason: string)

  function Product(s: seq<nat>): nat
    decreases |s|
  {
    if s == [] then 1 else Product(s[..|s| - 1]) * s[|s| - 1]
  }

  /** `min` and `max` of the two chips. */
  function MinMax(a: nat, b: nat): (r: (nat, nat))
    ensures r.0 <= r.1
    ensures multiset{r.0, r.1} == multiset{a, b}
  {
    if a <= b then (a, b) else (b, a)
  }

  /** One chip sent to a destination: a bot takes it, bins 0 to 2 multiply
      it into `part2` (a `u64`) and stop the processing at the third, and
      any other bin drops it. */
  function Send(m: Machine, dest: Destination, chip: nat): (s: Step)
    ensures s.Go? || s.Stop? ==> |s.state.bots| == |m.bots| && s.state.part1 == m.part1
    ensures s.Go? || s.Stop? ==> if dest.ToOutput? && dest.bin < 3 then s.state.binned == m.binned + [chip] else s.state.binned == m.binned
    ensures s.Stop? <==> dest.ToOutput? && dest.bin < 3 && Product(m.binned) * chip <= U64_MAX && |m.binned| + 1 == 3
    ensures s.Go? && dest.ToBot? ==> Deliver(m.bots, dest.bot, chip) == Ok(s.state.bots)
    ensures s.Go? && dest.ToOutput? ==> s.state.bots == m.bots
  {
    match dest
    case ToBot(n) =>
      (match Deliver(m.bots, n, chip)
       case Panic(why) => Fail(why)
       case Ok(bots) => Go(m.(bots := bots)))
    case ToOutput(bin) =>
      if bin < 3 then
        if Product(m.binned) * chip > U64_MAX then Fail("attempt to multiply with overflow")
        else
          var next := m.(binned := m.binned + [chip]);
          if |next.binned| == 3 then Stop(next) else Go(next)
      else Go(m)
  }

  /** A bot holding two chips, which the loop makes fire. */
  predicate Fires(b: Bot) {
    b.values.0.Some? && b.values.1.Some?
  }

  /** The machine after `bots.get_mut(i).unwrap().values = (None, None)`. */
  function Emptied(m: Machine, i: nat): (e: Machine)
    requires i < |m.bots|
    ensures |e.bots| == |m.bots| && e.binned == m.binned && e.part1 == m.part1
    ensures e.bots[i].values == (None, None) && e.bots[i].number == m.bots[i].number
    ensures forall j :: 0 <= j < |m.bots| && j != i ==> e.bots[j] == m.bots[j]
  {
    m.(bots := m.bots[i := m.bots[i].(values := (None, None))])
  }

  /** One visit of bot i by the `while` loop. A bot with two chips prints
      its number when they are 17 and 61, sends the lower chip to its low
      destination and the higher to its high one, and ends with both slots
      empty. */
  function Visit(m: Machine, i: nat): (s: Step)
    requires i < |m.bots|
    ensures m.bots[i].values.0.None? || m.bots[i].values.1.None? ==> s == Go(m)
    ensures s.Go? || s.Stop? ==> |s.state.bots| == |m.bots|
    ensures s.Go? && m.bots[i].values.0.Some? && m.bots[i].values.1.Some? ==> s.state.bots[i].values == (None, None)
    ensures s.Go? || s.Stop? ==>
      var values := m.bots[i].values;
      var compared := values.0.Some? && values.1.Some? && multiset{values.0.value, values.1.value} == multiset{17, 61};
      s.state.part1 == m.part1 + (if compared then [m.bots[i].number] else [])
    ensures s.Go? && Fires(m.bots[i]) ==>
      var bot := m.bots[i];
      var chips := MinMax(bot.values.0.value, bot.values.1.value);
      var first := Send(m.(part1 := s.state.part1), bot.low, chips.0);
      first.Go? && Send(first.state, bot.high, chips.1).Go?
      && s.state == Emptied(Send(first.state, bot.high, chips.1).state, i)
  {
    var bot := m.bots[i];
    if bot.values.0.None? || bot.values.1.None? then Go(m)
    else
      var chips := MinMax(bot.values.0.value, bot.values.1.value);
      var low := chips.0;
      var high := chips.1;
      assert low == 17 && high == 61 <==> multiset{bot.values.0.value, bot.values.1.value} == multiset{17, 61} by {
        if multiset{bot.values.0.value, bot.values.1.value} == multiset{17, 61} {
          assert low in multiset{17, 61} && high in multiset{17, 61};
        }
      }
      var printed := if low == 17 && high == 61 then m.(part1 := m.part1 + [bot.number]) else m;
      if low == 17 && high == 61 && |printed.binned| == 3 then Stop(printed)
      else
        match Send(printed, bot.low, low)
        case Fail(why) => Fail(why)
        case Stop(next) => Stop(next)
        case Go(next) =>
          match Send(next, bot.high, high)
          case Fail(why) => Fail(why)
          case Stop(last) => Stop(last)
          case Go(last) => Go(Emptied(last, i))
  }

  /** Where a chip goes to: a bot destination takes it as `Deliver` says,
      and a bin leaves the bots as they are. */
  function Routed(bots: seq<Bot>, dest: Destination, chip: nat): Result<seq<Bot>> {
    if dest.ToBot? then Deliver(bots, dest.bot, chip) else Ok(bots)
  }

  /** What a destination adds to the binned chips: bins 0 to 2 count. */
  function BinnedBy(dest: Destination, chip: nat): seq<nat> {
    if dest.ToOutput? && dest.bin < 3 then [chip] else []
  }

  /** A firing bot that lets the processing go on has sent its lower chip
      to its low destination and then its higher chip to its high one, and
      holds nothing afterwards; the binned chips grow by what reached bins
      0 to 2, in that order. */
  lemma VisitRoutes(m: Machine, i: nat)
    requires i < |m.bots| && Fires(m.bots[i]) && Visit(m, i).Go?
    ensures var bot := m.bots[i];
      var chips := MinMax(bot.values.0.value, bot.values.1.value);
      var after := Visit(m, i).state;
      chips.0 <= chips.1 && multiset{chips.0, chips.1} == Held(bot.values)
      && Routed(m.bots, bot.low, chips.0).Ok?
      && Routed(Routed(m.bots, bot.low, chips.0).value, bot.high, chips.1).Ok?
      && after.bots == Routed(Routed(m.bots, bot.low, chips.0).value, bot.high, chips.1).value[i := after.bots[i]]
      && after.bots[i].values == (None, None)
      && after.binned == m.binned + BinnedBy(bot.low, chips.0) + BinnedBy(bot.high, chips.1)
  {
    var bot := m.bots[i];
    var chips := MinMax(bot.values.0.value, bot.values.1.value);
    var after := Visit(m, i).state;
    var printed := m.(part1 := after.part1);
    var first := Send(printed, bot.low, chips.0);
    SendRoutes(printed, bot.low, chips.0);
    var second := Send(first.state, bot.high, chips.1);
    SendRoutes(first.state, bot.high, chips.1);
    assert after == Emptied(second.state, i);
  }

  /** A chip sent on without a stop or a panic leaves the bots as `Routed`
      says and adds to the binned chips what `BinnedBy` says. */
  lemma SendRoutes(m: Machine, dest: Destination, chip: nat)
    requires Send(m, dest, chip).Go?
    ensures Routed(m.bots, dest, chip) == Ok(Send(m, dest, chip).state.bots)
    ensures Send(m, dest, chip).state.binned == m.binned + BinnedBy(dest, chip)
  {
  }

  /** The visits of bots i, i + 1, ... in one pass of the `while` loop. */
  function Round(m: Machine, i: nat): Step
    requires i <= |m.bots|
    decreases |m.bots| - i
  {
    if i == |m.bots| then Go(m)
    else
      match Visit(m, i)
      case Go(next) => Round(next, i + 1)
      case other => other
  }

  /** The `'processing` loop, with at most `fuel` passes. */
  function Run(m: Machine, fuel: nat): Step
    decreases fuel
  {
    if fuel == 0 then Go(m)
    else
      match Round(m, 0)
      case Go(next) => Run(next, fuel - 1)
      case other => other
  }

  /** What the program prints: the part 1 bot numbers and `part2`, or a
      panic; None when the passes run out first. */
  function Outcome(s: Step): Result<Option<(seq<nat>, nat)>> {
    match s
    case Fail(why) => Panic(why)
    case Go(_) => Ok(None)
    case Stop(m) => Ok(Some((m.part1, Product(m.binned))))
  }

  /** The whole program on the lines of the data file. */
  function Simulate(lines: seq<string>, fuel: nat): Result<Option<(seq<nat>, nat)>> {
    match ParseBots(lines)
    case Panic(why) => Panic(why)
    case Ok(bots) =>
      match AssignAll(bots, Filter(lines, "value"))
      case Panic(why) => Panic(why)
      case Ok(loaded) => Outcome(Run(Machine(loaded, [], []), fuel))
  }

  // ---------------------------------------------------------------------
  // The loops

  /** The state the loop variables hold after one step: `bots`, `part2`,
      `part2_count` and the printed numbers, or the final printout, or a
      panic. */
  datatype Fired = Continue(bots: seq<Bot>, part2: nat, count: nat, part1: seq<nat>)
                 | Finished(part1: seq<nat>, part2: nat)
                 | Failed(reason: string)

  /** The loop variables and the ghost list of binned chips agree with a
      step of the model. */
  ghost predicate Mirrors(f: Fired, binned: seq<nat>, s: Step) {
    match s
    case Go(m) => f == Continue(m.bots, Product(m.binned), |m.binned|, m.part1) && binned == m.binned
    case Stop(m) => f == Finished(m.part1, Product(m.binned))
    case Fail(why) => f == Failed(why)
  }

  lemma ProductPush(s: seq<nat>, x: nat)
    ensures Product(s + [x]) == Product(s) * x
  {
    assert (s + [x])[..|s|] == s;
  }

  /** One `match` on a destination. */
  method SendChip(bots: seq<Bot>, part2: nat, part2Count: nat, part1: seq<nat>, ghost binned: seq<nat>, dest: Destination, chip: nat)
    returns (f: Fired, ghost binnedAfter: seq<nat>)
    requires part2 == Product(binned) && part2Count == |binned|
    ensures Mirrors(f, binnedAfter, Send(Machine(bots, binned, part1), dest, chip))
  {
    match dest
    case ToBot(n) =>
      var delivered := Deliver(bots, n, chip);
      if delivered.Panic? {
        return Failed(delivered.reason), binned;
      }
      return Continue(delivered.value, part2, part2Count, part1), binned;
    case ToOutput(bin) =>
      if bin < 3 {
        if part2 * chip > U64_MAX {
          return Failed("attempt to multiply with overflow"), binned;
        }
        ProductPush(binned, chip);
        var product := part2 * chip;
        var count := part2Count + 1;
        binnedAfter := binned + [chip];
        if count == 3 {
          return Finished(part1, product), binnedAfter;
        }
        return Continue(bots, product, count, part1), binnedAfter;
      }
      return Continue(bots, part2, part2Count, part1), binned;
  }

  /** The body of the `while` loop for bot i. */
  method Fire(bots: seq<Bot>, part2: nat, part2Count: nat, part1: seq<nat>, ghost binned: seq<nat>, i: nat)
    returns (f: Fired, ghost binnedAfter: seq<nat>)
    requires i < |bots| && part2 == Product(binned) && part2Count == |binned|
    ensures Mirrors(f, binnedAfter, Visit(Machine(bots, binned, part1), i))
  {
    var bot := bots[i];
    if bot.values.0.None? || bot.values.1.None? {
      return Continue(bots, part2, part2Count, part1), binned;
    }
    var chips := MinMax(bot.values.0.value, bot.values.1.value);
    var low := chips.0;
    var high := chips.1;
    var printed := part1;
    if low == 17 && high == 61 {
      printed := part1 + [bot.number];
      if part2Count == 3 {
        return Finished(printed, part2), binned;
      }
    }
    var first, binnedFirst := SendChip(bots, part2, part2Count, printed, binned, bot.low, low);
    if !first.Continue? {
      return first, binnedFirst;
    }
    var second, binnedSecond := SendChip(first.bots, first.part2, first.count, first.part1, binnedFirst, bot.high, high);
    if !second.Continue? {
      return second, binnedSecond;
    }
    var emptied := second.bots[i := second.bots[i].(values := (None, None))];
    return Continue(emptied, second.part2, second.count, second.part1), binnedSecond;
  }

  /** One pass of the `while` loop, over every bot in order. */
  method Pass(bots: seq<Bot>, part2: nat, part2Count: nat, part1: seq<nat>, ghost binned: seq<nat>)
    returns (f: Fired, ghost binnedAfter: seq<nat>)
    requires part2 == Product(binned) && part2Count == |binned|
    ensures Mirrors(f, binnedAfter, Round(Machine(bots, binned, part1), 0))
  {
    ghost var start := Machine(bots, binned, part1);
    var current, product, count, printed := bots, part2, part2Count, part1;
    binnedAfter := binned;
    var i := 0;
    while i < |current|
      invariant i <= |current|
      invariant Round(Machine(current, binnedAfter, printed), i) == Round(start, 0)
      invariant product == Product(binnedAfter) && count == |binnedAfter|
    {
      ghost var here := Machine(current, binnedAfter, printed);
      var fired, after := Fire(current, product, count, printed, binnedAfter, i);
      if !fired.Continue? {
        assert Round(here, i) == Visit(here, i);
        return fired, after;
      }
      current, product, count, printed, binnedAfter := fired.bots, fired.part2, fired.count, fired.part1, after;
      i := i + 1;
    }
    f := Continue(current, product, count, printed);
  }

  /** The `'processing` loop over the loaded bots, with at most `fuel`
      passes of the `while` loop. */
  method ProcessBots(initial: seq<Bot>, fuel: nat) returns (r: Result<Option<(seq<nat>, nat)>>)
    ensures r == Outcome(Run(Machine(initial, [], []), fuel))
  {
    var bots := initial;
    var part2: nat := 1;
    var part2Count: nat := 0;
    var part1: seq<nat> := [];
    ghost var binned: seq<nat> := [];
    var left := fuel;
    while left > 0
      invariant Run(Machine(bots, binned, part1), left) == Run(Machine(initial, [], []), fuel)
      invariant part2 == Product(binned) && part2Count == |binned|
    {
      var f, binnedAfter := Pass(bots, part2, part2Count, part1, binned);
      if f.Failed? {
        return Panic(f.reason);
      } else if f.Finished? {
        return Ok(Some((f.part1, f.part2)));
      }
      bots, part2, part2Count, part1, binned := f.bots, f.part2, f.count, f.part1, binnedAfter;
      left := left - 1;
    }
    return Ok(None);
  }

  /** `main` on the lines of the data file. */
  method Solve(lines: seq<string>, fuel: nat) returns (r: Result<Option<(seq<nat>, nat)>>)
    ensures r == Simulate(lines, fuel)
  {
    var parsed := ParseBots(lines);
    if parsed.Panic? {
      return Panic(parsed.reason);
    }
    var loaded := AssignValues(parsed.value, lines);
    if loaded.Panic? {
      return Panic(loaded.reason);
    }
    r := ProcessBots(loaded.value, fuel);
  }

  // ---------------------------------------------------------------------
  // Properties

  /** Sending a chip only appends to the binned chips, and stops exactly
      when it bins the third. */
  lemma SendBinned(m: Machine, dest: Destination, chip: nat)
    requires |m.binned| < 3
    ensures Send(m, dest, chip).Go? ==> |Send(m, dest, chip).state.binned| < 3 && m.binned <= Send(m, dest, chip).state.binned
    ensures Send(m, dest, chip).Stop? ==> |Send(m, dest, chip).state.binned| == 3 && m.binned <= Send(m, dest, chip).state.binned
  {
  }

  /** A visit only appends to the binned chips, and while fewer than three
      are binned it stops only by binning the third. So the part 1 check
      `part2_count == 3` never stops the processing: the third binned chip
      has stopped it already. */
  lemma VisitBinned(m: Machine, i: nat)
    requires i < |m.bots| && |m.binned| < 3
    ensures Visit(m, i).Go? ==> |Visit(m, i).state.binned| < 3 && m.binned <= Visit(m, i).state.binned
    ensures Visit(m, i).Stop? ==> |Visit(m, i).state.binned| == 3 && m.binned <= Visit(m, i).state.binned
  {
    var bot := m.bots[i];
    if bot.values.0.Some? && bot.values.1.Some? {
      var chips := MinMax(bot.values.0.value, bot.values.1.value);
      var printed := if chips.0 == 17 && chips.1 == 61 then m.(part1 := m.part1 + [bot.number]) else m;
      SendBinned(printed, bot.low, chips.0);
      var first := Send(printed, bot.low, chips.0);
      if first.Go? {
        SendBinned(first.state, bot.high, chips.1);
      }
    }
  }

  lemma {:induction false} RoundBinned(m: Machine, i: nat)
    requires i <= |m.bots| && |m.binned| < 3
    ensures Round(m, i).Go? ==> |Round(m, i).state.binned| < 3 && m.binned <= Round(m, i).state.binned
    ensures Round(m, i).Stop? ==> |Round(m, i).state.binned| == 3 && m.binned <= Round(m, i).state.binned
    decreases |m.bots| - i
  {
    if i < |m.bots| {
      VisitBinned(m, i);
      if Visit(m, i).Go? {
        RoundBinned(Visit(m, i).state, i + 1);
      }
    }
  }

  lemma {:induction false} RunBinned(m: Machine, fuel: nat)
    requires |m.binned| < 3
    ensures Run(m, fuel).Go? ==> |Run(m, fuel).state.binned| < 3
    ensures Run(m, fuel).Stop? ==> |Run(m, fuel).state.binned| == 3 && m.binned <= Run(m, fuel).state.binned
    decreases fuel
  {
    if fuel > 0 {
      RoundBinned(m, 0);
      if Round(m, 0).Go? {
        RunBinned(Round(m, 0).state, fuel - 1);
      }
    }
  }

  /** The processing stops only after three chips reached bins 0 to 2, and
      `part2` is then their product. */
  lemma StopsAfterThree(bots: seq<Bot>, fuel: nat)
    requires Run(Machine(bots, [], []), fuel).Stop?
    ensures var binned := Run(Machine(bots, [], []), fuel).state.binned;
      |binned| == 3 && Outcome(Run(Machine(bots, [], []), fuel)).value.value.1 == binned[0] * binned[1] * binned[2]
  {
    RunBinned(Machine(bots, [], []), fuel);
    var binned := Run(Machine(bots, [], []), fuel).state.binned;
    assert binned[..1][..0] == [];
    assert binned[..2][..1] == binned[..1];
    assert binned[..3] == binned;
    assert Product(binned[..1]) == binned[0];
    assert Product(binned[..2]) == binned[0] * binned[1];
  }

  /** The sample from the puzzle, after the `value` lines: bot 2 holds 5
      and 2, bot 1 holds 3; outputs 0, 1 and 2 receive 5, 2 and 3, so the
      third pass stops with 30 and no bot compares 17 with 61. */
  lemma ExampleSample()
    ensures Outcome(Run(SampleStart(), 3)) == Ok(Some(([], 30)))
  {
    var m1 := Machine([
      Bot(0, (Some(5), None), ToOutput(0), ToOutput(2)),
      Bot(1, (Some(3), Some(2)), ToBot(0), ToOutput(1)),
      Bot(2, (None, None), ToBot(0), ToBot(1))], [], []);
    var m2 := Machine([
      Bot(0, (Some(5), Some(3)), ToOutput(0), ToOutput(2)),
      Bot(1, (None, None), ToBot(0), ToOutput(1)),
      Bot(2, (None, None), ToBot(0), ToBot(1))], [2], []);
    var last := Machine(m2.bots, [2, 3, 5], []);
    SampleFirstPass(m1);
    SampleSecondPass(m1, m2);
    SampleThirdPass(m2);
    assert Run(m2, 1) == Stop(last);
    assert Run(m1, 2) == Stop(last);
    assert Run(SampleStart(), 3) == Stop(last);
    SampleProducts();
  }

  /** The sample's bots, in order of number, after the `value` lines. */
  function SampleStart(): Machine {
    Machine([
      Bot(0, (None, None), ToOutput(0), ToOutput(2)),
      Bot(1, (Some(3), None), ToBot(0), ToOutput(1)),
      Bot(2, (Some(5), Some(2)), ToBot(0), ToBot(1))], [], [])
  }

  /** Pass 1: only bot 2 holds two chips; 2 goes to bot 1 and 5 to bot 0. */
  lemma SampleFirstPass(m1: Machine)
    requires m1 == Machine([
      Bot(0, (Some(5), None), ToOutput(0), ToOutput(2)),
      Bot(1, (Some(3), Some(2)), ToBot(0), ToOutput(1)),
      Bot(2, (None, None), ToBot(0), ToBot(1))], [], [])
    ensures Round(SampleStart(), 0) == Go(m1)
  {
    var m0 := SampleStart();
    assert Visit(m0, 0) == Go(m0);
    assert Visit(m0, 1) == Go(m0);
    assert Visit(m0, 2) == Go(m1);
    assert Round(m1, 3) == Go(m1);
  }

  /** Pass 2: bot 1 bins 2 in output 1 and gives 3 to bot 0. */
  lemma SampleSecondPass(m1: Machine, m2: Machine)
    requires m1 == Machine([
      Bot(0, (Some(5), None), ToOutput(0), ToOutput(2)),
      Bot(1, (Some(3), Some(2)), ToBot(0), ToOutput(1)),
      Bot(2, (None, None), ToBot(0), ToBot(1))], [], [])
    requires m2 == Machine([
      Bot(0, (Some(5), Some(3)), ToOutput(0), ToOutput(2)),
      Bot(1, (None, None), ToBot(0), ToOutput(1)),
      Bot(2, (None, None), ToBot(0), ToBot(1))], [2], [])
    ensures Round(m1, 0) == Go(m2)
  {
    assert Visit(m1, 0) == Go(m1);
    assert Visit(m1, 1) == Go(m2);
    assert Visit(m2, 2) == Go(m2);
    assert Round(m2, 3) == Go(m2);
  }

  /** Pass 3: bot 0 bins 3 in output 2 and 5 in output 0, the third. */
  lemma SampleThirdPass(m2: Machine)
    requires m2 == Machine([
      Bot(0, (Some(5), Some(3)), ToOutput(0), ToOutput(2)),
      Bot(1, (None, None), ToBot(0), ToOutput(1)),
      Bot(2, (None, None), ToBot(0), ToBot(1))], [2], [])
    ensures Round(m2, 0) == Stop(Machine(m2.bots, [2, 3, 5], []))
  {
    SampleProducts();
    var low := Send(m2, ToOutput(2), 3);
    assert low == Go(m2.(binned := [2, 3]));
    assert Send(low.state, ToOutput(0), 5) == Stop(Machine(m2.bots, [2, 3, 5], []));
    assert Visit(m2, 0) == Stop(Machine(m2.bots, [2, 3, 5], []));
  }

  lemma SampleProducts()
    ensures Product([2]) == 2 && Product([2, 3]) == 6 && Product([2, 3, 5]) == 30
  {
    assert [2][..0] == [];
    assert [2, 3][..1] == [2];
    assert [2, 3, 5][..2] == [2, 3];
  }
}
