/** day11: the radioisotope testing facility. Each floor holds microchips
    and generators named by their element; the elevator carries one or two
    items a floor up or down per step, and a microchip left with another
    element's generator and without its own is fried. The program reads
    the floors and searches, best first, for the fewest steps that bring
    everything to the top floor. */
module Facility {
  import opened Common
  import opened Text
  import opened Sorting

  const SubtractPanic := "attempt to subtract with overflow"
  const IndexPanic := "index out of bounds"
  const UnexpectedPanic := "Unexpected string"

  /** A floor: the elements of its microchips and of its generators. */
  datatype Floor = Floor(microchips: seq<string>, generators: seq<string>)

  // ---------------------------------------------------------------------
  // Reading a floor

  /** The arms of `to_floor`'s `match`. */
  datatype Kind = GeneratorWord | MicrochipWord | OtherWord

  /** The kind word with its trailing commas, then full stops, trimmed. */
  function KindOf(word: string): Kind {
    var trimmed := TrimEndMatches(TrimEndMatches(word, ","), ".");
    if trimmed == "generator" then GeneratorWord
    else if trimmed == "microchip" then MicrochipWord
    else OtherWord
  }

  /** A microchip's element: its word without the `-compatible` suffix. */
  function ChipElement(word: string): string {
    TrimEndMatches(word, "-compatible")
  }

  /** The `while index < components.len() - 1` loop of `to_floor` from
      `index` on: skip an `a`, then read the item whose kind follows its
      name. The kind word is classified by `kindOf` and a microchip's word
      read by `element`, which are `KindOf` and `ChipElement` in the
      program. */
  function ReadItems(components: seq<string>, index: nat, floor: Floor,
                     kindOf: string -> Kind, element: string -> string): Result<Floor>
    requires components != []
    decreases |components| - index
  {
    if index >= |components| - 1 then Ok(floor)
    else
      var at := if components[index] == "a" then index + 1 else index;
      if at + 1 >= |components| then Panic(IndexPanic)
      else
        match kindOf(components[at + 1])
        case GeneratorWord =>
          ReadItems(components, at + 3, floor.(generators := floor.generators + [components[at]]), kindOf, element)
        case MicrochipWord =>
          ReadItems(components, at + 3, floor.(microchips := floor.microchips + [element(components[at])]), kindOf, element)
        case OtherWord => Panic(UnexpectedPanic)
  }

  /** `to_floor`: the items from the sixth word on; `len() - 1`
      underflows on a line without words. */
  function ReadFloor(line: string): Result<Floor> {
    var components := SplitWhitespace(line);
    if components == [] then Panic(SubtractPanic) else ReadItems(components, 5, Floor([], []), KindOf, ChipElement)
  }

  /** `to_floor`, the loop itself. */
  method ToFloor(line: string) returns (r: Result<Floor>)
    ensures r == ReadFloor(line)
  {
    var components := SplitWhitespace(line);
    if |components| == 0 {
      return Panic(SubtractPanic);
    }
    r := ReadComponents(components, KindOf, ChipElement);
  }

  /** The loop of `to_floor` over the words from the sixth on, with the
      kind word classified by `kindOf` and a microchip's word read by
      `element`. */
  method ReadComponents(components: seq<string>, kindOf: string -> Kind, element: string -> string)
    returns (r: Result<Floor>)
    requires components != []
    ensures r == ReadItems(components, 5, Floor([], []), kindOf, element)
  {
    var generators: seq<string> := [];
    var microchips: seq<string> := [];
    var index := 5;
    while index < |components| - 1
      invariant ReadItems(components, index, Floor(microchips, generators), kindOf, element) ==
                ReadItems(components, 5, Floor([], []), kindOf, element)
      decreases |components| - index
    {
      if components[index] == "a" {
        index := index + 1;
      }
      if index + 1 >= |components| {
        return Panic(IndexPanic);
      }
      match kindOf(components[index + 1]) {
        case GeneratorWord =>
          generators := generators + [components[index]];
        case MicrochipWord =>
          microchips := microchips + [element(components[index])];
        case OtherWord =>
          return Panic(UnexpectedPanic);
      }
      index := index + 3;
    }
    r := Ok(Floor(microchips, generators));
  }

  // ---------------------------------------------------------------------
  // The puzzle's floor descriptions read back

  /** An item as the puzzle lists it. */
  datatype Item = Generator(element: string) | Microchip(element: string)

  predicate EndsWith(s: string, pat: string) {
    |pat| <= |s| && s[|s| - |pat|..] == pat
  }

  /** An element name the description can carry: one word, not the
      article `a`, and not itself ending in `-compatible`. */
  predicate ElementOk(e: string) {
    e != [] && NoWhitespace(e) && e != "a" && !EndsWith(e, "-compatible")
  }

  predicate ItemsOk(items: seq<Item>) {
    forall k :: 0 <= k < |items| ==> ElementOk(items[k].element)
  }

  /** The word naming an item's element. */
  function NameWord(item: Item): string {
    match item
    case Generator(e) => e
    case Microchip(e) => e + "-compatible"
  }

  /** The word naming an item's kind. */
  function KindWord(item: Item): string {
    match item
    case Generator(_) => "generator"
    case Microchip(_) => "microchip"
  }

  /** The two words of an item, with the punctuation after its kind. */
  function Words(item: Item, punct: string): seq<string> {
    [NameWord(item), KindWord(item) + punct]
  }

  /** The list from the first item's name on: `X, a Y, and a Z.`, or
      `X and a Y.` for two items (`comma` is the punctuation before the
      final `and`). */
  function Listing(items: seq<Item>, comma: string): seq<string>
    requires items != []
    decreases |items|
  {
    if |items| == 1 then Words(items[0], ".")
    else if |items| == 2 then Words(items[0], comma) + ["and", "a"] + Words(items[1], ".")
    else Words(items[0], ",") + ["a"] + Listing(items[1..], comma)
  }

  /** The words after `contains`. */
  function Contents(items: seq<Item>): seq<string> {
    if items == [] then ["nothing", "relevant."]
    else ["a"] + Listing(items, if |items| == 2 then "" else ",")
  }

  /** A line of the puzzle input: `The first floor contains ...`. */
  function Describe(ordinal: string, items: seq<Item>): string {
    Join(["The", ordinal, "floor", "contains"] + Contents(items), " ")
  }

  /** The floor after adding the items in order. */
  function Stocked(floor: Floor, items: seq<Item>): Floor
    decreases |items|
  {
    if items == [] then floor
    else
      var next := match items[0]
        case Generator(e) => floor.(generators := floor.generators + [e])
        case Microchip(e) => floor.(microchips := floor.microchips + [e]);
      Stocked(next, items[1..])
  }

  lemma TrimEndNoMatch(s: string, pat: string)
    requires pat != [] && (s == [] || s[|s| - 1] != pat[|pat| - 1])
    ensures TrimEndMatches(s, pat) == s
  {
    assert !(|pat| <= |s| && s[|s| - |pat|..] == pat) by {
      if |pat| <= |s| {
        assert s[|s| - |pat|..][|pat| - 1] == s[|s| - 1];
      }
    }
  }

  lemma TrimEndAppended(s: string, pat: string)
    requires pat != []
    ensures TrimEndMatches(s + pat, pat) == TrimEndMatches(s, pat)
  {
    var t := s + pat;
    assert t[|t| - |pat|..] == pat && t[..|t| - |pat|] == s;
  }

  /** The kind word reads as its kind, whatever punctuation follows it. */
  lemma KindRead(kind: string, punct: string)
    requires kind == "generator" || kind == "microchip"
    requires punct == "" || punct == "," || punct == "."
    ensures KindOf(kind + punct) == if kind == "generator" then GeneratorWord else MicrochipWord
  {
    assert kind + "" == kind;
    TrimEndNoMatch(kind, ",");
    TrimEndNoMatch(kind, ".");
    if punct == "," {
      TrimEndAppended(kind, ",");
    } else if punct == "." {
      TrimEndNoMatch(kind + ".", ",");
      TrimEndAppended(kind, ".");
    }
  }

  /** An item's words read back as the item: the kind word as its kind,
      the name word as its element, and the name word is never `a`. */
  lemma ItemRead(item: Item, punct: string)
    requires ElementOk(item.element)
    requires punct == "" || punct == "," || punct == "."
    ensures KindOf(KindWord(item) + punct) == if item.Generator? then GeneratorWord else MicrochipWord
    ensures item.Microchip? ==> ChipElement(NameWord(item)) == item.element
    ensures NameWord(item) != "a"
  {
    KindRead(KindWord(item), punct);
    if item.Microchip? {
      TrimEndAppended(item.element, "-compatible");
      assert |NameWord(item)| > 1;
    }
  }

  /** Adding one item. */
  lemma StockedOne(floor: Floor, item: Item)
    ensures Stocked(floor, [item]) == match item
      case Generator(e) => floor.(generators := floor.generators + [e])
      case Microchip(e) => floor.(microchips := floor.microchips + [e])
  {
    assert [item][1..] == [];
  }

  /** `kindOf` and `element` read every item's words as that item. */
  ghost predicate ReadsItems(kindOf: string -> Kind, element: string -> string) {
    forall item: Item, punct: string {:trigger kindOf(KindWord(item) + punct)} ::
      ElementOk(item.element) && (punct == "" || punct == "," || punct == ".") ==>
      kindOf(KindWord(item) + punct) == (if item.Generator? then GeneratorWord else MicrochipWord) &&
      (item.Microchip? ==> element(NameWord(item)) == item.element)
  }

  lemma ProgramReadsItems()
    ensures ReadsItems(KindOf, ChipElement)
  {
    forall item: Item, punct: string | ElementOk(item.element) && (punct == "" || punct == "," || punct == ".")
      ensures KindOf(KindWord(item) + punct) == (if item.Generator? then GeneratorWord else MicrochipWord)
      ensures item.Microchip? ==> ChipElement(NameWord(item)) == item.element
    {
      ItemRead(item, punct);
    }
  }

  /** One pass of the loop over an item whose words stand at `at`, after
      an optional `a` at `index`. */
  lemma ReadStep(c: seq<string>, index: nat, at: nat, floor: Floor, item: Item, punct: string,
                 kindOf: string -> Kind, element: string -> string)
    requires ReadsItems(kindOf, element)
    requires c != [] && index < |c| - 1 && ElementOk(item.element)
    requires punct == "" || punct == "," || punct == "."
    requires at == if c[index] == "a" then index + 1 else index
    requires at + 1 < |c| && c[at] == NameWord(item) && c[at + 1] == KindWord(item) + punct
    ensures ReadItems(c, index, floor, kindOf, element) == ReadItems(c, at + 3, Stocked(floor, [item]), kindOf, element)
  {
    assert kindOf(KindWord(item) + punct) == (if item.Generator? then GeneratorWord else MicrochipWord);
    StockedOne(floor, item);
  }

  /** The words at the head of a listing. */
  lemma ListingHead(items: seq<Item>, comma: string)
    requires items != []
    ensures var l := Listing(items, comma);
      |l| >= 2 && l[0] == NameWord(items[0]) &&
      l[1] == KindWord(items[0]) + (if |items| == 1 then "." else if |items| == 2 then comma else ",")
    ensures |items| == 1 ==> |Listing(items, comma)| == 2
    ensures |items| == 2 ==> var l := Listing(items, comma);
      |l| == 6 && l[3] == "a" && l[4] == NameWord(items[1]) && l[5] == KindWord(items[1]) + "."
    ensures |items| > 2 ==> var l := Listing(items, comma);
      l[3..] == Listing(items[1..], comma)
  {
  }

  /** A listing of two items, `X and a Y.`. */
  lemma ReadPair(c: seq<string>, p: nat, items: seq<Item>, comma: string, floor: Floor,
                 kindOf: string -> Kind, element: string -> string)
    requires ReadsItems(kindOf, element)
    requires |items| == 2 && ItemsOk(items) && (comma == "" || comma == ",")
    requires p + |Listing(items, comma)| == |c| && c[p..] == Listing(items, comma)
    ensures ReadItems(c, p, floor, kindOf, element) == Ok(Stocked(floor, items))
  {
    var l := Listing(items, comma);
    ListingHead(items, comma);
    assert c[p] == l[0] && c[p + 1] == l[1];
    assert c[p + 3] == l[3] && c[p + 4] == l[4] && c[p + 5] == l[5];
    assert ElementOk(items[0].element) && ElementOk(items[1].element);
    var first := Stocked(floor, [items[0]]);
    ReadStep(c, p, p, floor, items[0], comma, kindOf, element);
    ReadStep(c, p + 3, p + 4, first, items[1], ".", kindOf, element);
    StockedOne(first, items[1]);
    assert Stocked(floor, items) == Stocked(first, [items[1]]) by {
      StockedOne(floor, items[0]);
      assert items[1..] == [items[1]];
    }
  }

  lemma {:induction false} ReadListing(c: seq<string>, p: nat, items: seq<Item>, comma: string, floor: Floor,
                                      kindOf: string -> Kind, element: string -> string)
    requires ReadsItems(kindOf, element)
    requires items != [] && ItemsOk(items) && (comma == "" || comma == ",")
    requires p + |Listing(items, comma)| == |c| && c[p..] == Listing(items, comma)
    ensures ReadItems(c, p, floor, kindOf, element) == Ok(Stocked(floor, items))
    decreases |items|
  {
    var l := Listing(items, comma);
    ListingHead(items, comma);
    assert c[p] == l[0] && c[p + 1] == l[1];
    var first := Stocked(floor, [items[0]]);
    assert Stocked(floor, items) == Stocked(first, items[1..]) by {
      StockedOne(floor, items[0]);
    }
    assert ElementOk(items[0].element);
    if |items| == 1 {
      ReadStep(c, p, p, floor, items[0], ".", kindOf, element);
    } else if |items| == 2 {
      ReadPair(c, p, items, comma, floor, kindOf, element);
    } else {
      ReadStep(c, p, p, floor, items[0], ",", kindOf, element);
      assert c[p + 3..] == l[3..];
      assert ItemsOk(items[1..]) by {
        assert forall k :: 0 <= k < |items[1..]| ==> items[1..][k] == items[k + 1];
      }
      ReadListing(c, p + 3, items[1..], comma, first, kindOf, element);
    }
  }

  /** Each of the words is a single non-empty word. */
  predicate Plain(words: seq<string>) {
    forall k :: 0 <= k < |words| ==> words[k] != [] && NoWhitespace(words[k])
  }

  lemma PlainConcat(a: seq<string>, b: seq<string>)
    requires Plain(a) && Plain(b)
    ensures Plain(a + b)
  {
    forall k | 0 <= k < |a + b| ensures (a + b)[k] != [] && NoWhitespace((a + b)[k]) {
      if k < |a| {
        assert (a + b)[k] == a[k];
      } else {
        assert (a + b)[k] == b[k - |a|];
      }
    }
  }

  lemma NoWhitespaceConcat(a: string, b: string)
    requires NoWhitespace(a) && NoWhitespace(b)
    ensures NoWhitespace(a + b)
  {
    forall i | 0 <= i < |a + b| ensures !IsWhitespace((a + b)[i]) {
      if i < |a| {
        assert (a + b)[i] == a[i];
      } else {
        assert (a + b)[i] == b[i - |a|];
      }
    }
  }

  /** The fixed words of a description are plain words. */
  lemma FixedWordsPlain()
    ensures Plain(["The"]) && Plain(["floor", "contains"]) && Plain(["nothing", "relevant."])
    ensures Plain(["a"]) && Plain(["and", "a"])
  {
  }

  /** The suffix, the kind words and the punctuation have no whitespace. */
  lemma FixedPartsPlain()
    ensures NoWhitespace("-compatible") && NoWhitespace("generator") && NoWhitespace("microchip")
    ensures NoWhitespace("") && NoWhitespace(",") && NoWhitespace(".")
  {
  }

  lemma WordsPlain(item: Item, punct: string)
    requires ElementOk(item.element) && (punct == "" || punct == "," || punct == ".")
    ensures Plain(Words(item, punct))
  {
    FixedPartsPlain();
    NoWhitespaceConcat(item.element, "-compatible");
    NoWhitespaceConcat(KindWord(item), punct);
  }

  /** Every word of a listing is a single non-empty word. */
  lemma {:induction false} WordsOk(items: seq<Item>, comma: string)
    requires items != [] && ItemsOk(items) && (comma == "" || comma == ",")
    ensures Plain(Listing(items, comma))
    decreases |items|
  {
    var article := ["a"];
    FixedWordsPlain();
    assert ElementOk(items[0].element);
    if |items| == 1 {
      WordsPlain(items[0], ".");
    } else if |items| == 2 {
      assert ElementOk(items[1].element);
      WordsPlain(items[0], comma);
      WordsPlain(items[1], ".");
      PlainConcat(Words(items[0], comma), ["and", "a"]);
      PlainConcat(Words(items[0], comma) + ["and", "a"], Words(items[1], "."));
    } else {
      WordsPlain(items[0], ",");
      assert ItemsOk(items[1..]) by {
        assert forall k :: 0 <= k < |items[1..]| ==> items[1..][k] == items[k + 1];
      }
      WordsOk(items[1..], comma);
      PlainConcat(Words(items[0], ","), article);
      PlainConcat(Words(items[0], ",") + article, Listing(items[1..], comma));
    }
  }

  /** Every word of a described floor is a single non-empty word. */
  lemma DescribedPlain(ordinal: string, items: seq<Item>)
    requires ordinal != [] && NoWhitespace(ordinal) && ItemsOk(items)
    ensures Plain(["The", ordinal, "floor", "contains"] + Contents(items))
  {
    var head := ["The", ordinal, "floor", "contains"];
    FixedWordsPlain();
    assert Plain(head) by {
      assert Plain([ordinal]);
      PlainConcat(["The"], [ordinal]);
      PlainConcat(["The"] + [ordinal], ["floor", "contains"]);
      assert head == ["The"] + [ordinal] + ["floor", "contains"];
    }
    if items != [] {
      var comma := if |items| == 2 then "" else ",";
      WordsOk(items, comma);
      PlainConcat(["a"], Listing(items, comma));
    }
    PlainConcat(head, Contents(items));
  }

  /** Reading a floor described as the puzzle describes it gives back its
      items: generators and microchips each in the order listed. */
  lemma DescribeRead(ordinal: string, items: seq<Item>)
    requires ordinal != [] && NoWhitespace(ordinal) && ItemsOk(items)
    ensures ReadFloor(Describe(ordinal, items)) == Ok(Stocked(Floor([], []), items))
  {
    var head := ["The", ordinal, "floor", "contains"];
    var tokens := head + Contents(items);
    DescribedPlain(ordinal, items);
    SplitJoinedTokens(tokens);
    if items != [] {
      var comma := if |items| == 2 then "" else ",";
      assert tokens == head + ["a"] + Listing(items, comma);
      assert tokens[5..] == Listing(items, comma) by {
        assert |head + ["a"]| == 5;
      }
      ProgramReadsItems();
      ReadListing(tokens, 5, items, comma, Floor([], []), KindOf, ChipElement);
    }
  }

  // ---------------------------------------------------------------------
  // Safety and the goal

  /** `floor.microchips.iter().any(|m| !floor.generators.contains(m))`:
      some microchip whose element has no generator on the floor. */
  function AnyUnpaired(chips: seq<string>, generators: seq<string>): (b: bool)
    ensures b <==> exists m :: m in chips && m !in generators
  {
    if chips == [] then false
    else
      assert forall m :: m in chips <==> m == chips[0] || m in chips[1..];
      chips[0] !in generators || AnyUnpaired(chips[1..], generators)
  }

  /** A floor where a microchip is fried: there is a generator, and some
      microchip lacks its own. */
  predicate Fried(floor: Floor) {
    |floor.generators| > 0 && AnyUnpaired(floor.microchips, floor.generators)
  }

  /** No floor fries a microchip. */
  predicate Safe(floors: seq<Floor>) {
    forall k :: 0 <= k < |floors| ==> !Fried(floors[k])
  }

  /** A floor is unsafe exactly when it has a generator and a microchip
      of another element than all of them. */
  lemma FriedMeaning(floor: Floor)
    ensures Fried(floor) <==>
      floor.generators != [] && exists m :: m in floor.microchips && m !in floor.generators
  {
  }

  predicate Empty(floor: Floor) {
    floor.microchips == [] && floor.generators == []
  }

  /** `.any(|f| f.microchips.len() > 0 || f.generators.len() > 0)`. */
  function AnyOccupied(floors: seq<Floor>): (b: bool)
    ensures b <==> exists k :: 0 <= k < |floors| && !Empty(floors[k])
  {
    if floors == [] then false
    else
      assert forall k :: 1 <= k < |floors| ==> floors[k] == floors[1..][k - 1];
      !Empty(floors[0]) || AnyOccupied(floors[1..])
  }

  /** The goal test: nothing on the first three floors (`take(3)`). */
  predicate AtGoal(floors: seq<Floor>) {
    !AnyOccupied(floors[..if |floors| < 3 then |floors| else 3])
  }

  /** The goal holds exactly when the floors below the fourth are empty,
      whatever the fourth and any higher floor hold. */
  lemma AtGoalMeaning(floors: seq<Floor>)
    ensures AtGoal(floors) <==> forall k :: 0 <= k < |floors| && k < 3 ==> Empty(floors[k])
  {
    var n := if |floors| < 3 then |floors| else 3;
    assert forall k :: 0 <= k < n ==> floors[..n][k] == floors[k];
  }

  // ---------------------------------------------------------------------
  // States

  /** A search state. `steps` is a `u32` and the elevator a `usize` in the
      program. */
  datatype State = State(steps: nat, floors: seq<Floor>, elevator: nat)

  /** `impl PartialEq for State`: the floors and the elevator agree. */
  predicate Same(a: State, b: State) {
    a.floors == b.floors && a.elevator == b.elevator
  }

  /** What `impl Hash for State` hashes, and what `seen_states` holds. */
  type Key = (seq<Floor>, nat)

  function KeyOf(s: State): Key {
    (s.floors, s.elevator)
  }

  /** Equal states have equal keys and states with equal keys are equal,
      so the set of keys holds one entry per state; the steps taken play
      no part in either. */
  lemma KeyMatchesSame(a: State, b: State, n: nat)
    ensures Same(a, b) <==> KeyOf(a) == KeyOf(b)
    ensures Same(a, a.(steps := n)) && KeyOf(a.(steps := n)) == KeyOf(a)
  {
  }

  /** The elevator stands on a floor, unless there are none. */
  predicate Placed(s: State) {
    s.floors == [] || s.elevator < |s.floors|
  }

  // ---------------------------------------------------------------------
  // The estimate

  /** The items on a floor. */
  function ItemCount(floor: Floor): nat {
    |floor.generators| + |floor.microchips|
  }

  /** The loop `for f in 0..(self.floors.len() - 1)` of `steps_to_finish`
      from floor `f` on, with `count` items carried up so far: every floor
      with items below the top adds one trip for the last two items and two
      trips for each of the others (`(floor_count as i32 - 2).max(0)`). */
  function Remaining(floors: seq<Floor>, f: nat, count: nat, steps: nat): nat
    requires floors != []
    decreases |floors| - f
  {
    if f >= |floors| - 1 then steps
    else
      var floorCount := count + ItemCount(floors[f]);
      var trips := if floorCount > 0 then 2 * (if floorCount >= 2 then floorCount - 2 else 0) + 1 else 0;
      Remaining(floors, f + 1, floorCount, steps + trips)
  }

  /** `steps_to_finish`; `len() - 1` underflows without floors. */
  function Estimate(s: State): Result<nat> {
    if s.floors == [] then Panic(SubtractPanic) else Ok(Remaining(s.floors, 0, 0, s.steps))
  }

  /** `steps_to_finish`, the loop itself. */
  method StepsToFinish(s: State) returns (r: Result<nat>)
    ensures r == Estimate(s)
  {
    if |s.floors| == 0 {
      return Panic(SubtractPanic);
    }
    var steps: nat := s.steps;
    var count: nat := 0;
    for f: nat := 0 to |s.floors| - 1
      invariant Remaining(s.floors, f, count, steps) == Remaining(s.floors, 0, 0, s.steps)
    {
      var floorCount := count + ItemCount(s.floors[f]);
      if floorCount > 0 {
        steps := steps + 2 * (if floorCount >= 2 then floorCount - 2 else 0) + 1;
      }
      count := floorCount;
    }
    r := Ok(steps);
  }

  /** The estimate never falls below the steps taken, and meets them
      exactly when nothing is carried and no floor from `f` up to the top
      holds an item. */
  lemma {:induction false} RemainingBounds(floors: seq<Floor>, f: nat, count: nat, steps: nat)
    requires floors != []
    ensures Remaining(floors, f, count, steps) >= steps
    ensures Remaining(floors, f, count, steps) == steps <==>
      f >= |floors| - 1 || (count == 0 && forall k :: f <= k < |floors| - 1 ==> Empty(floors[k]))
    decreases |floors| - f
  {
    if f < |floors| - 1 {
      var floorCount := count + ItemCount(floors[f]);
      var trips := if floorCount > 0 then 2 * (if floorCount >= 2 then floorCount - 2 else 0) + 1 else 0;
      RemainingBounds(floors, f + 1, floorCount, steps + trips);
      assert floorCount == 0 <==> count == 0 && Empty(floors[f]);
    }
  }

  /** `steps_to_finish >= steps`, and the estimate adds nothing exactly
      when every floor but the top one is empty: with the puzzle's four
      floors, exactly when the goal test holds. */
  lemma EstimateMeaning(s: State)
    requires s.floors != []
    ensures Estimate(s).Ok? && Estimate(s).value >= s.steps
    ensures Estimate(s).value == s.steps <==> forall k :: 0 <= k < |s.floors| - 1 ==> Empty(s.floors[k])
    ensures |s.floors| == 4 ==> (Estimate(s).value == s.steps <==> AtGoal(s.floors))
  {
    RemainingBounds(s.floors, 0, 0, s.steps);
    AtGoalMeaning(s.floors);
  }

  // ---------------------------------------------------------------------
  // Element names in order

  /** `Ord for String`: lexicographic, a proper prefix first. */
  predicate NameLe(a: string, b: string)
    decreases |a|
  {
    if a == [] then true
    else if b == [] then false
    else if a[0] != b[0] then a[0] < b[0]
    else NameLe(a[1..], b[1..])
  }

  lemma {:induction false} NameLeTotal(a: string, b: string)
    ensures NameLe(a, b) || NameLe(b, a)
    decreases |a|
  {
    if a != [] && b != [] && a[0] == b[0] {
      NameLeTotal(a[1..], b[1..]);
    }
  }

  lemma {:induction false} NameLeTransitive(a: string, b: string, c: string)
    requires NameLe(a, b) && NameLe(b, c)
    ensures NameLe(a, c)
    decreases |a|
  {
    if a != [] && b != [] && c != [] && a[0] == b[0] && b[0] == c[0] {
      NameLeTransitive(a[1..], b[1..], c[1..]);
    }
  }

  /** Only equal names are ordered both ways. */
  lemma {:induction false} NameLeAntisymmetric(a: string, b: string)
    requires NameLe(a, b) && NameLe(b, a)
    ensures a == b
    decreases |a|
  {
    if a != [] && b != [] {
      NameLeAntisymmetric(a[1..], b[1..]);
      assert a == [a[0]] + a[1..] && b == [b[0]] + b[1..];
    }
  }

  lemma NameOrder()
    ensures TotalPreorder(NameLe)
  {
    forall a: string, b: string ensures NameLe(a, b) || NameLe(b, a) {
      NameLeTotal(a, b);
    }
    forall a: string, b: string, c: string | NameLe(a, b) && NameLe(b, c) ensures NameLe(a, c) {
      NameLeTransitive(a, b, c);
    }
  }

  /** Insertion of one name after every name not greater than it. */
  function InsertName(x: string, sorted: seq<string>): seq<string> {
    if sorted == [] then [x]
    else if NameLe(sorted[0], x) then [sorted[0]] + InsertName(x, sorted[1..])
    else [x] + sorted
  }

  /** `Vec<String>::sort`, the names inserted one at a time. */
  function SortNames(names: seq<string>): seq<string> {
    if names == [] then [] else InsertName(names[|names| - 1], SortNames(names[..|names| - 1]))
  }

  lemma {:induction false} InsertNameIsInsert(x: string, sorted: seq<string>)
    requires TotalPreorder(NameLe) && SortedBy(sorted, NameLe)
    ensures InsertName(x, sorted) == Insert(x, sorted, NameLe)
    decreases |sorted|
  {
    if sorted != [] && NameLe(sorted[0], x) {
      assert SortedBy(sorted[1..], NameLe) by {
        forall i, j | 0 <= i < j < |sorted[1..]| ensures NameLe(sorted[1..][i], sorted[1..][j]) {
          assert sorted[1..][i] == sorted[i + 1] && sorted[1..][j] == sorted[j + 1];
        }
      }
      InsertNameIsInsert(x, sorted[1..]);
    }
  }

  /** The program's sort is the stable sort by name order, so it gives the
      same names in ascending order. */
  lemma {:induction false} SortNamesMeaning(names: seq<string>)
    ensures TotalPreorder(NameLe) && SortNames(names) == SortBy(names, NameLe)
    ensures multiset(SortNames(names)) == multiset(names) && SortedBy(SortNames(names), NameLe)
    decreases |names|
  {
    NameOrder();
    if names != [] {
      var prefix := names[..|names| - 1];
      SortNamesMeaning(prefix);
      InsertNameIsInsert(names[|names| - 1], SortBy(prefix, NameLe));
    }
  }

  // ---------------------------------------------------------------------
  // Removing items

  /** `Vec::remove(i)`. */
  function Remove(s: seq<string>, i: nat): (r: seq<string>)
    requires i < |s|
    ensures |r| == |s| - 1
  {
    s[..i] + s[i + 1..]
  }

  /** Removing takes away exactly the name at i and keeps the others in
      order. */
  lemma RemoveMeaning(s: seq<string>, i: nat)
    requires i < |s|
    ensures multiset(Remove(s, i)) + multiset{s[i]} == multiset(s)
    ensures forall k :: 0 <= k < |s| - 1 ==> Remove(s, i)[k] == if k < i then s[k] else s[k + 1]
  {
    assert s == s[..i] + [s[i]] + s[i + 1..];
  }

  /** `.filter(|m| *m != generator)`. */
  function Filter(s: seq<string>, x: string): seq<string> {
    if s == [] then []
    else (if s[0] == x then [] else [s[0]]) + Filter(s[1..], x)
  }

  /** Filtering drops every copy of x and nothing else. */
  lemma {:induction false} FilterMeaning(s: seq<string>, x: string)
    ensures multiset(Filter(s, x)) == multiset(s)[x := 0]
  {
    if s != [] {
      assert s == [s[0]] + s[1..];
      FilterMeaning(s[1..], x);
    }
  }

  /** Filtering out a name that occurs once takes away just that one. */
  lemma FilterOnce(s: seq<string>, x: string)
    requires multiset(s)[x] == 1
    ensures multiset(Filter(s, x)) + multiset{x} == multiset(s)
  {
    FilterMeaning(s, x);
  }

  // ---------------------------------------------------------------------
  // Moves

  /** What the elevator carries, by the indices `remove` is called with:
      a second generator or microchip is indexed in the list left after
      the first was removed, from the first's index on. */
  datatype Load =
    | OneGenerator(g: nat)
    | GeneratorAndChip(g: nat)
    | TwoGenerators(g: nat, h: nat)
    | OneChip(m: nat)
    | TwoChips(m: nat, n: nat)

  /** The loads the loops of the search offer on a floor. */
  predicate Fits(floor: Floor, load: Load) {
    match load
    case OneGenerator(g) => g < |floor.generators|
    case GeneratorAndChip(g) => g < |floor.generators| && floor.generators[g] in floor.microchips
    case TwoGenerators(g, h) => g <= h && h + 1 < |floor.generators|
    case OneChip(m) => m < |floor.microchips|
    case TwoChips(m, n) => m <= n && n + 1 < |floor.microchips|
  }

  /** The generators the load takes, in the order they are pushed. */
  function TakenGenerators(floor: Floor, load: Load): seq<string>
    requires Fits(floor, load)
  {
    match load
    case OneGenerator(g) => [floor.generators[g]]
    case GeneratorAndChip(g) => [floor.generators[g]]
    case TwoGenerators(g, h) => [floor.generators[g], Remove(floor.generators, g)[h]]
    case OneChip(_) => []
    case TwoChips(_, _) => []
  }

  /** The microchips the load takes, in the order they are pushed. */
  function TakenChips(floor: Floor, load: Load): seq<string>
    requires Fits(floor, load)
  {
    match load
    case OneGenerator(_) => []
    case GeneratorAndChip(g) => [floor.generators[g]]
    case TwoGenerators(_, _) => []
    case OneChip(m) => [floor.microchips[m]]
    case TwoChips(m, n) => [floor.microchips[m], Remove(floor.microchips, m)[n]]
  }

  /** The elevator's floor once the load is taken off it. */
  function Unloaded(floor: Floor, load: Load): Floor
    requires Fits(floor, load)
  {
    match load
    case OneGenerator(g) => floor.(generators := Remove(floor.generators, g))
    case GeneratorAndChip(g) =>
      Floor(Filter(floor.microchips, floor.generators[g]), Remove(floor.generators, g))
    case TwoGenerators(g, h) => floor.(generators := Remove(Remove(floor.generators, g), h))
    case OneChip(m) => floor.(microchips := Remove(floor.microchips, m))
    case TwoChips(m, n) => floor.(microchips := Remove(Remove(floor.microchips, m), n))
  }

  /** The destination once the load is pushed onto it; only a list that
      received items is sorted again. */
  function Loaded(floor: Floor, generators: seq<string>, chips: seq<string>): Floor {
    Floor(if chips == [] then floor.microchips else SortNames(floor.microchips + chips),
          if generators == [] then floor.generators else SortNames(floor.generators + generators))
  }

  /** The load can go from the elevator's floor to dest, one floor up or
      down. */
  predicate Legal(s: State, load: Load, dest: nat) {
    s.elevator < |s.floors| && Fits(s.floors[s.elevator], load) &&
    ((dest == s.elevator + 1 && dest < |s.floors|) || dest + 1 == s.elevator)
  }

  /** The state pushed for a load carried to dest: one more step, the
      elevator at dest, and only the two floors involved changed. */
  function Apply(s: State, load: Load, dest: nat): (t: State)
    requires Legal(s, load, dest)
    ensures t.steps == s.steps + 1 && t.elevator == dest && |t.floors| == |s.floors|
    ensures dest < |s.floors| && (dest == s.elevator + 1 || dest + 1 == s.elevator)
    ensures forall k :: 0 <= k < |s.floors| && k != s.elevator && k != dest ==> t.floors[k] == s.floors[k]
  {
    var here := s.floors[s.elevator];
    var there := Loaded(s.floors[dest], TakenGenerators(here, load), TakenChips(here, load));
    State(s.steps + 1, s.floors[s.elevator := Unloaded(here, load)][dest := there], dest)
  }

  /** The destination gains exactly the items pushed onto it. */
  lemma LoadedGains(floor: Floor, generators: seq<string>, chips: seq<string>)
    ensures multiset(Loaded(floor, generators, chips).generators) == multiset(floor.generators) + multiset(generators)
    ensures multiset(Loaded(floor, generators, chips).microchips) == multiset(floor.microchips) + multiset(chips)
  {
    SortNamesMeaning(floor.generators + generators);
    SortNamesMeaning(floor.microchips + chips);
  }

  /** Removing two names, the second from what the first left. */
  lemma RemoveTwice(s: seq<string>, i: nat, j: nat)
    requires i < |s| && j < |s| - 1
    ensures multiset(Remove(Remove(s, i), j)) + multiset([s[i], Remove(s, i)[j]]) == multiset(s)
  {
    var rest := Remove(s, i);
    RemoveMeaning(s, i);
    RemoveMeaning(rest, j);
    assert multiset([s[i], rest[j]]) == multiset{s[i]} + multiset{rest[j]};
  }

  /** The elevator's floor loses exactly the items taken, except that
      taking a generator with its microchip drops every microchip of that
      element; the pair carried then is matched. */
  lemma UnloadedLoses(floor: Floor, load: Load)
    requires Fits(floor, load)
    ensures var gens, chips := TakenGenerators(floor, load), TakenChips(floor, load);
      var left := Unloaded(floor, load);
      1 <= |gens| + |chips| <= 2 &&
      multiset(left.generators) + multiset(gens) == multiset(floor.generators) &&
      (!load.GeneratorAndChip? ==> multiset(left.microchips) + multiset(chips) == multiset(floor.microchips)) &&
      (load.GeneratorAndChip? ==>
        gens == chips && multiset(left.microchips) == multiset(floor.microchips)[gens[0] := 0])
  {
    match load
    case OneGenerator(g) => RemoveMeaning(floor.generators, g);
    case GeneratorAndChip(g) =>
      RemoveMeaning(floor.generators, g);
      FilterMeaning(floor.microchips, floor.generators[g]);
    case TwoGenerators(g, h) => RemoveTwice(floor.generators, g, h);
    case OneChip(m) => RemoveMeaning(floor.microchips, m);
    case TwoChips(m, n) => RemoveTwice(floor.microchips, m, n);
  }

  /** A move carries one or two items from the elevator's floor to dest. */
  lemma ApplyCarries(s: State, load: Load, dest: nat)
    requires Legal(s, load, dest)
    ensures var here := s.floors[s.elevator];
      var gens, chips := TakenGenerators(here, load), TakenChips(here, load);
      var t := Apply(s, load, dest);
      1 <= |gens| + |chips| <= 2 &&
      multiset(t.floors[dest].generators) == multiset(s.floors[dest].generators) + multiset(gens) &&
      multiset(t.floors[dest].microchips) == multiset(s.floors[dest].microchips) + multiset(chips) &&
      multiset(t.floors[s.elevator].generators) + multiset(gens) == multiset(here.generators) &&
      (!load.GeneratorAndChip? ==>
        multiset(t.floors[s.elevator].microchips) + multiset(chips) == multiset(here.microchips)) &&
      (load.GeneratorAndChip? ==>
        gens == chips && multiset(t.floors[s.elevator].microchips) == multiset(here.microchips)[gens[0] := 0])
  {
    var here := s.floors[s.elevator];
    var gens, chips := TakenGenerators(here, load), TakenChips(here, load);
    var t := Apply(s, load, dest);
    assert t.floors[dest] == Loaded(s.floors[dest], gens, chips);
    assert t.floors[s.elevator] == Unloaded(here, load);
    LoadedGains(s.floors[dest], gens, chips);
    UnloadedLoses(here, load);
  }

  datatype Side = Generators | Microchips

  function Items(floor: Floor, side: Side): seq<string> {
    match side
    case Generators => floor.generators
    case Microchips => floor.microchips
  }

  /** How many generators, or microchips, of element x a floor holds. */
  function Occurrences(floor: Floor, side: Side, x: string): nat {
    multiset(Items(floor, side))[x]
  }

  /** How many generators, or microchips, of element x the building holds. */
  function Copies(floors: seq<Floor>, side: Side, x: string): nat {
    if floors == [] then 0
    else Copies(floors[..|floors| - 1], side, x) + Occurrences(floors[|floors| - 1], side, x)
  }

  /** Replacing one floor replaces its items in the count. */
  lemma {:induction false} CopiesUpdate(floors: seq<Floor>, k: nat, floor: Floor, side: Side, x: string)
    requires k < |floors|
    ensures Copies(floors[k := floor], side, x) + Occurrences(floors[k], side, x) ==
            Copies(floors, side, x) + Occurrences(floor, side, x)
    decreases |floors|
  {
    var n := |floors| - 1;
    var changed := floors[k := floor];
    if k < n {
      assert changed[..n] == floors[..n][k := floor];
      assert changed[n] == floors[n];
      CopiesUpdate(floors[..n], k, floor, side, x);
    } else {
      assert changed[..n] == floors[..n];
    }
  }

  /** The items of element x a load takes, on one side. */
  function TakenCount(floor: Floor, load: Load, side: Side, x: string): nat
    requires Fits(floor, load)
  {
    multiset(if side.Generators? then TakenGenerators(floor, load) else TakenChips(floor, load))[x]
  }

  /** The elevator's floor loses what the destination gains. */
  lemma ExchangeCounts(here: Floor, there: Floor, load: Load, side: Side, x: string)
    requires Fits(here, load)
    requires load.GeneratorAndChip? ==> multiset(here.microchips)[here.generators[load.g]] == 1
    ensures Occurrences(Unloaded(here, load), side, x) + TakenCount(here, load, side, x) == Occurrences(here, side, x)
    ensures Occurrences(Loaded(there, TakenGenerators(here, load), TakenChips(here, load)), side, x) ==
            Occurrences(there, side, x) + TakenCount(here, load, side, x)
  {
    LoadedGains(there, TakenGenerators(here, load), TakenChips(here, load));
    UnloadedLoses(here, load);
    if load.GeneratorAndChip? {
      FilterOnce(here.microchips, here.generators[load.g]);
    }
  }

  /** No move creates or destroys an item, so long as a generator taken
      with its microchip leaves no other microchip of its element behind. */
  lemma ApplyConserves(s: State, load: Load, dest: nat, side: Side, x: string)
    requires Legal(s, load, dest)
    requires load.GeneratorAndChip? ==> var here := s.floors[s.elevator];
      multiset(here.microchips)[here.generators[load.g]] == 1
    ensures Copies(Apply(s, load, dest).floors, side, x) == Copies(s.floors, side, x)
  {
    var here := s.floors[s.elevator];
    var unloaded := Unloaded(here, load);
    var there := Loaded(s.floors[dest], TakenGenerators(here, load), TakenChips(here, load));
    var first := s.floors[s.elevator := unloaded];
    ExchangeCounts(here, s.floors[dest], load, side, x);
    CopiesUpdate(s.floors, s.elevator, unloaded, side, x);
    assert first[dest] == s.floors[dest];
    CopiesUpdate(first, dest, there, side, x);
    assert first[dest := there] == Apply(s, load, dest).floors;
  }

  // ---------------------------------------------------------------------
  // Successors

  /** The floors the elevator can go to, in the order the program tries
      them: up if there is a floor above, then down if there is one below. */
  function Destinations(s: State): (r: seq<nat>)
    requires s.elevator < |s.floors|
    ensures forall dest: nat :: dest in r <==> (dest == s.elevator + 1 && dest < |s.floors|) || dest + 1 == s.elevator
  {
    (if s.elevator < |s.floors| - 1 then [s.elevator + 1] else []) + (if s.elevator > 0 then [s.elevator - 1] else [])
  }

  /** Whether each generator's microchip is on the same floor. */
  function Paired(floor: Floor): (r: seq<bool>)
    ensures |r| == |floor.generators| && forall g :: 0 <= g < |r| ==> r[g] == (floor.generators[g] in floor.microchips)
  {
    seq(|floor.generators|, g requires 0 <= g < |floor.generators| => floor.generators[g] in floor.microchips)
  }

  /** One load to each destination in turn. */
  function Trips(load: Load, dests: seq<nat>): seq<(Load, nat)> {
    seq(|dests|, k requires 0 <= k < |dests| => (load, dests[k]))
  }

  /** `for second_g in g..h`: generator g with each later one. */
  function SecondGenerators(g: nat, h: nat, dests: seq<nat>): seq<(Load, nat)>
    decreases h
  {
    if h <= g then [] else SecondGenerators(g, h - 1, dests) + Trips(TwoGenerators(g, h - 1), dests)
  }

  /** The generator loop for the generators before n: each alone, then
      with its microchip if that is on the floor, then with each later
      generator. */
  function GeneratorMoves(n: nat, paired: seq<bool>, dests: seq<nat>): seq<(Load, nat)>
    requires n <= |paired|
  {
    if n == 0 then []
    else
      var g := n - 1;
      GeneratorMoves(g, paired, dests) + Trips(OneGenerator(g), dests) +
      (if paired[g] then Trips(GeneratorAndChip(g), dests) else []) + SecondGenerators(g, |paired| - 1, dests)
  }

  /** `for second_m in m..n`: microchip m with each later one. */
  function SecondChips(m: nat, n: nat, dests: seq<nat>): seq<(Load, nat)>
    decreases n
  {
    if n <= m then [] else SecondChips(m, n - 1, dests) + Trips(TwoChips(m, n - 1), dests)
  }

  /** The microchip loop for the first n of `count` microchips: each alone,
      then with each later one. */
  function ChipMoves(n: nat, count: nat, dests: seq<nat>): seq<(Load, nat)>
    requires 0 < n <= count || n == 0
  {
    if n == 0 then []
    else
      var m := n - 1;
      ChipMoves(m, count, dests) + Trips(OneChip(m), dests) + SecondChips(m, count - 1, dests)
  }

  /** Every move the search tries from a state, in the order it pushes
      them. */
  function Moves(s: State): seq<(Load, nat)>
    requires s.elevator < |s.floors|
  {
    var here := s.floors[s.elevator];
    GeneratorMoves(|here.generators|, Paired(here), Destinations(s)) +
    ChipMoves(|here.microchips|, |here.microchips|, Destinations(s))
  }

  lemma TripsMeaning(load: Load, dests: seq<nat>)
    ensures forall x :: x in Trips(load, dests) <==> x.0 == load && x.1 in dests
  {
    forall x: (Load, nat) | x.0 == load && x.1 in dests ensures x in Trips(load, dests) {
      var k :| 0 <= k < |dests| && dests[k] == x.1;
      assert Trips(load, dests)[k] == x;
    }
  }

  /** The generator loads the generator loop offers for the generators
      before n. */
  predicate GeneratorOffered(load: Load, n: nat, paired: seq<bool>)
    requires n <= |paired|
  {
    match load
    case OneGenerator(g) => g < n
    case GeneratorAndChip(g) => g < n && paired[g]
    case TwoGenerators(g, h) => g < n && g <= h && h + 1 < |paired|
    case OneChip(_) => false
    case TwoChips(_, _) => false
  }

  /** The microchip loads the microchip loop offers for the first n of
      `count` microchips. */
  predicate ChipOffered(load: Load, n: nat, count: nat) {
    match load
    case OneChip(m) => m < n
    case TwoChips(m, k) => m < n && m <= k && k + 1 < count
    case _ => false
  }

  lemma {:induction false} SecondGeneratorsMeaning(g: nat, h: nat, dests: seq<nat>)
    ensures forall x :: x in SecondGenerators(g, h, dests) <==>
      x.0.TwoGenerators? && x.0.g == g && g <= x.0.h < h && x.1 in dests
    decreases h
  {
    if h > g {
      SecondGeneratorsMeaning(g, h - 1, dests);
      TripsMeaning(TwoGenerators(g, h - 1), dests);
    }
  }

  lemma {:induction false} SecondChipsMeaning(m: nat, n: nat, dests: seq<nat>)
    ensures forall x :: x in SecondChips(m, n, dests) <==>
      x.0.TwoChips? && x.0.m == m && m <= x.0.n < n && x.1 in dests
    decreases n
  {
    if n > m {
      SecondChipsMeaning(m, n - 1, dests);
      TripsMeaning(TwoChips(m, n - 1), dests);
    }
  }

  lemma {:induction false} GeneratorMovesMeaning(n: nat, paired: seq<bool>, dests: seq<nat>)
    requires n <= |paired|
    ensures forall x :: x in GeneratorMoves(n, paired, dests) <==> GeneratorOffered(x.0, n, paired) && x.1 in dests
  {
    if n > 0 {
      var g := n - 1;
      GeneratorMovesMeaning(g, paired, dests);
      TripsMeaning(OneGenerator(g), dests);
      TripsMeaning(GeneratorAndChip(g), dests);
      SecondGeneratorsMeaning(g, |paired| - 1, dests);
    }
  }

  lemma {:induction false} ChipMovesMeaning(n: nat, count: nat, dests: seq<nat>)
    requires 0 < n <= count || n == 0
    ensures forall x :: x in ChipMoves(n, count, dests) <==> ChipOffered(x.0, n, count) && x.1 in dests
  {
    if n > 0 {
      var m := n - 1;
      ChipMovesMeaning(m, count, dests);
      TripsMeaning(OneChip(m), dests);
      SecondChipsMeaning(m, count - 1, dests);
    }
  }

  /** The search tries exactly the legal moves: every load of one or two
      items the floor offers, up and down, and nothing else. */
  lemma MovesMeaning(s: State)
    requires s.elevator < |s.floors|
    ensures forall x :: x in Moves(s) <==> Legal(s, x.0, x.1)
  {
    var here := s.floors[s.elevator];
    var paired, dests := Paired(here), Destinations(s);
    GeneratorMovesMeaning(|here.generators|, paired, dests);
    ChipMovesMeaning(|here.microchips|, |here.microchips|, dests);
    forall load: Load ensures Fits(here, load) <==>
      GeneratorOffered(load, |here.generators|, paired) || ChipOffered(load, |here.microchips|, |here.microchips|)
    {
    }
  }

  /** next holds, for each move in order, the state it pushes. */
  predicate Follows(s: State, moves: seq<(Load, nat)>, next: seq<State>) {
    |next| == |moves| &&
    forall k :: 0 <= k < |moves| ==> Legal(s, moves[k].0, moves[k].1) && next[k] == Apply(s, moves[k].0, moves[k].1)
  }

  /** The transition the search pushes states by: a legal move's state
      is `Apply`'s; an illegal one, which the search never offers
      (`MovesMeaning`), leaves the state as it is. */
  function Push(s: State): ((Load, nat)) -> State {
    (x: (Load, nat)) => if Legal(s, x.0, x.1) then Apply(s, x.0, x.1) else s
  }

  /** next holds step's state for each move, in order. */
  predicate Pushes(moves: seq<(Load, nat)>, next: seq<State>, step: ((Load, nat)) -> State) {
    |next| == |moves| && forall k :: 0 <= k < |moves| ==> next[k] == step(moves[k])
  }

  lemma PushesConcat(moves: seq<(Load, nat)>, next: seq<State>, more: seq<(Load, nat)>, pushed: seq<State>,
                     step: ((Load, nat)) -> State)
    requires Pushes(moves, next, step) && Pushes(more, pushed, step)
    ensures Pushes(moves + more, next + pushed, step)
  {
    forall k | 0 <= k < |moves + more| ensures (next + pushed)[k] == step((moves + more)[k]) {
      if k >= |moves| {
        assert (moves + more)[k] == more[k - |moves|];
        assert (next + pushed)[k] == pushed[k - |moves|];
      }
    }
  }

  /** Pushing by `Push(s)` moves that are all legal is following them. */
  lemma PushFollows(s: State, moves: seq<(Load, nat)>, next: seq<State>)
    requires Pushes(moves, next, Push(s)) && forall x :: x in moves ==> Legal(s, x.0, x.1)
    ensures Follows(s, moves, next)
  {
    forall k | 0 <= k < |moves|
      ensures Legal(s, moves[k].0, moves[k].1) && next[k] == Apply(s, moves[k].0, moves[k].1)
    {
      assert moves[k] in moves;
    }
  }

  /** Each pair of `if` blocks: the state for the load carried up, if
      there is a floor above, then the one for it carried down, if there
      is one below. */
  method Trip(s: State, step: ((Load, nat)) -> State, load: Load) returns (pushed: seq<State>)
    requires s.elevator < |s.floors|
    ensures Pushes(Trips(load, Destinations(s)), pushed, step)
  {
    pushed := [];
    if s.elevator < |s.floors| - 1 {
      pushed := pushed + [step((load, s.elevator + 1))];
    }
    if s.elevator > 0 {
      pushed := pushed + [step((load, s.elevator - 1))];
    }
  }

  /** `for second_g in g..`: the states for generator g carried with each
      later generator. */
  method SecondGeneratorSuccessors(s: State, step: ((Load, nat)) -> State, g: nat) returns (next: seq<State>)
    requires s.elevator < |s.floors| && g < |s.floors[s.elevator].generators|
    ensures Pushes(SecondGenerators(g, |s.floors[s.elevator].generators| - 1, Destinations(s)), next, step)
  {
    var count, dests := |s.floors[s.elevator].generators|, Destinations(s);
    next := [];
    for h: nat := g to count - 1
      invariant Pushes(SecondGenerators(g, h, dests), next, step)
    {
      var pushed := Trip(s, step, TwoGenerators(g, h));
      PushesConcat(SecondGenerators(g, h, dests), next, Trips(TwoGenerators(g, h), dests), pushed, step);
      next := next + pushed;
    }
  }

  /** The generator loop of the search: the states pushed for every move
      that carries a generator, in order. */
  method GeneratorSuccessors(s: State, step: ((Load, nat)) -> State) returns (next: seq<State>)
    requires s.elevator < |s.floors|
    ensures var here := s.floors[s.elevator];
      Pushes(GeneratorMoves(|here.generators|, Paired(here), Destinations(s)), next, step)
  {
    var here := s.floors[s.elevator];
    var paired, dests := Paired(here), Destinations(s);
    next := [];
    for g: nat := 0 to |here.generators|
      invariant Pushes(GeneratorMoves(g, paired, dests), next, step)
    {
      var alone := Trip(s, step, OneGenerator(g));
      var withChip := [];
      if here.generators[g] in here.microchips {
        withChip := Trip(s, step, GeneratorAndChip(g));
      }
      var second := SecondGeneratorSuccessors(s, step, g);
      ghost var chipMoves := if paired[g] then Trips(GeneratorAndChip(g), dests) else [];
      PushesConcat(GeneratorMoves(g, paired, dests), next, Trips(OneGenerator(g), dests), alone, step);
      PushesConcat(GeneratorMoves(g, paired, dests) + Trips(OneGenerator(g), dests), next + alone,
                   chipMoves, withChip, step);
      PushesConcat(GeneratorMoves(g, paired, dests) + Trips(OneGenerator(g), dests) + chipMoves, next + alone + withChip,
                   SecondGenerators(g, |paired| - 1, dests), second, step);
      next := next + alone + withChip + second;
    }
  }

  /** `for second_m in m..`: the states for microchip m carried with each
      later microchip. */
  method SecondChipSuccessors(s: State, step: ((Load, nat)) -> State, m: nat) returns (next: seq<State>)
    requires s.elevator < |s.floors| && m < |s.floors[s.elevator].microchips|
    ensures Pushes(SecondChips(m, |s.floors[s.elevator].microchips| - 1, Destinations(s)), next, step)
  {
    var count, dests := |s.floors[s.elevator].microchips|, Destinations(s);
    next := [];
    for n: nat := m to count - 1
      invariant Pushes(SecondChips(m, n, dests), next, step)
    {
      var pushed := Trip(s, step, TwoChips(m, n));
      PushesConcat(SecondChips(m, n, dests), next, Trips(TwoChips(m, n), dests), pushed, step);
      next := next + pushed;
    }
  }

  /** The microchip loop of the search: the states pushed for every move
      that carries microchips only, in order. */
  method ChipSuccessors(s: State, step: ((Load, nat)) -> State) returns (next: seq<State>)
    requires s.elevator < |s.floors|
    ensures var count := |s.floors[s.elevator].microchips|;
      Pushes(ChipMoves(count, count, Destinations(s)), next, step)
  {
    var count, dests := |s.floors[s.elevator].microchips|, Destinations(s);
    next := [];
    for m: nat := 0 to count
      invariant Pushes(ChipMoves(m, count, dests), next, step)
    {
      var alone := Trip(s, step, OneChip(m));
      var second := SecondChipSuccessors(s, step, m);
      PushesConcat(ChipMoves(m, count, dests), next, Trips(OneChip(m), dests), alone, step);
      PushesConcat(ChipMoves(m, count, dests) + Trips(OneChip(m), dests), next + alone,
                   SecondChips(m, count - 1, dests), second, step);
      next := next + alone + second;
    }
  }

  /** The successor generation of the search loop: the state each move
      leads to, in the order the program pushes them. */
  method Successors(s: State) returns (next: seq<State>)
    requires s.elevator < |s.floors|
    ensures Follows(s, Moves(s), next)
  {
    var byGenerator := GeneratorSuccessors(s, Push(s));
    var byChip := ChipSuccessors(s, Push(s));
    var here := s.floors[s.elevator];
    PushesConcat(GeneratorMoves(|here.generators|, Paired(here), Destinations(s)), byGenerator,
                 ChipMoves(|here.microchips|, |here.microchips|, Destinations(s)), byChip, Push(s));
    next := byGenerator + byChip;
    MovesMeaning(s);
    PushFollows(s, Moves(s), next);
  }

  // ---------------------------------------------------------------------
  // The search loop

  /** The start: every line read as a floor, no steps taken, the elevator
      on the first floor. */
  function Start(lines: seq<string>): (r: Result<State>)
    ensures r.Ok? <==> forall i :: 0 <= i < |lines| ==> ReadFloor(lines[i]).Ok?
    ensures r.Ok? ==> r.value.steps == 0 && r.value.elevator == 0 && Placed(r.value)
    ensures r.Ok? ==> |r.value.floors| == |lines|
    ensures r.Ok? ==> forall i :: 0 <= i < |lines| ==> ReadFloor(lines[i]) == Ok(r.value.floors[i])
  {
    MapResult(CollectAll(lines, ReadFloor), (floors: seq<Floor>) => State(0, floors, 0))
  }

  /** What one pass of the search loop does with a popped state. */
  datatype Outcome =
    | AlreadySeen
    | Unsafe
    | Reached(steps: nat)
    | Expanded(next: seq<State>)

  /** One pass of `'search`: record the state in `seen_states`, skipping
      it if it was there; drop it if a floor fries a microchip; stop with
      its steps if the first three floors are empty; otherwise the states
      to push. */
  method Visit(s: State, seen: set<Key>) returns (outcome: Outcome, seenAfter: set<Key>)
    requires Placed(s)
    ensures seenAfter == seen + {KeyOf(s)}
    ensures KeyOf(s) in seen ==> outcome == AlreadySeen
    ensures KeyOf(s) !in seen && !Safe(s.floors) ==> outcome == Unsafe
    ensures KeyOf(s) !in seen && Safe(s.floors) && AtGoal(s.floors) ==> outcome == Reached(s.steps)
    ensures KeyOf(s) !in seen && Safe(s.floors) && !AtGoal(s.floors) ==>
      outcome.Expanded? && s.elevator < |s.floors| && Follows(s, Moves(s), outcome.next)
  {
    seenAfter := seen + {KeyOf(s)};
    if KeyOf(s) in seen {
      return AlreadySeen, seenAfter;
    }
    for i := 0 to |s.floors|
      invariant forall j :: 0 <= j < i ==> !Fried(s.floors[j])
    {
      var floor := s.floors[i];
      if |floor.generators| > 0 && AnyUnpaired(floor.microchips, floor.generators) {
        return Unsafe, seenAfter;
      }
    }
    if AtGoal(s.floors) {
      return Reached(s.steps), seenAfter;
    }
    var next := Successors(s);
    outcome := Expanded(next);
  }
}
