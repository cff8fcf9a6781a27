/** day04: a room line is `name-with-dashes-SECTOR[checksum]`. The room is
    real when the checksum lists its most common name letters, most common
    first and ties in alphabetical order; a real room's name is decrypted by
    shifting every letter forward by the sector id. */
module Rooms {
  import opened Common
  import opened Text
  import opened Sorting
  import opened Modular

  /** The letters `is_valid` counts: `filter(|c| *c != '-')` and then
      `take_while` over `'a'..='z'`. */
  function NameLetters(line: string): (r: string)
    ensures forall i :: 0 <= i < |r| ==> IsLower(r[i])
    decreases |line|
  {
    if line == [] then []
    else if line[0] == '-' then NameLetters(line[1..])
    else if IsLower(line[0]) then [line[0]] + NameLetters(line[1..])
    else []
  }

  function Count(s: string, c: char): nat {
    multiset(s)[c]
  }

  ghost predicate NoDuplicates<T>(s: seq<T>) {
    forall i, j :: 0 <= i < j < |s| ==> s[i] != s[j]
  }

  /** The letters of s, each once, in order of first appearance. */
  function Distinct(s: string): (r: string)
    ensures forall c :: c in r <==> c in s
    ensures NoDuplicates(r)
    decreases |s|
  {
    if s == [] then []
    else
      var d := Distinct(s[..|s| - 1]);
      assert s == s[..|s| - 1] + [s[|s| - 1]];
      if s[|s| - 1] in d then d else d + [s[|s| - 1]]
  }

  /** The comparator of `sort_by`: the higher count first, then the
      smaller letter. */
  predicate RankLe(x: (char, nat), y: (char, nat)) {
    x.1 > y.1 || (x.1 == y.1 && x.0 <= y.0)
  }

  lemma RankIsTotal()
    ensures TotalPreorder(RankLe)
    ensures forall x, y :: RankLe(x, y) && RankLe(y, x) ==> x == y
  {
  }

  /** Each letter with its count, as `char_counts` holds them. */
  function Entries(s: string): (r: seq<(char, nat)>)
    ensures |r| == |Distinct(s)|
    ensures forall i :: 0 <= i < |r| ==> r[i].0 == Distinct(s)[i] && r[i].1 == Count(s, r[i].0)
  {
    var d := Distinct(s);
    seq(|d|, i requires 0 <= i < |d| => (d[i], Count(s, d[i])))
  }

  /** `counts.sort_by(...)`. */
  function RankSort(items: seq<(char, nat)>): (r: seq<(char, nat)>)
    ensures SortedBy(r, RankLe)
    ensures multiset(r) == multiset(items)
  {
    RankIsTotal();
    SortBy(items, RankLe)
  }

  /** The sorted `counts` vector. */
  function Ranking(s: string): (r: seq<(char, nat)>)
    ensures SortedBy(r, RankLe)
    ensures multiset(r) == multiset(Entries(s))
  {
    RankSort(Entries(s))
  }

  predicate Matches(checksum: string, ranked: seq<(char, nat)>, n: nat)
    requires n <= |checksum| && n <= |ranked|
  {
    forall k :: 0 <= k < n ==> checksum[k] == ranked[k].0
  }

  /** The comparison loop of `is_valid`: each checksum character must be
      the letter of the same rank. A checksum longer than the ranking indexes
      past the end of `counts` and panics, unless a mismatch came first. */
  function Compare(checksum: string, ranked: seq<(char, nat)>): Result<bool> {
    if |checksum| <= |ranked| then Ok(Matches(checksum, ranked, |checksum|))
    else if Matches(checksum, ranked, |ranked|) then Panic("index out of bounds")
    else Ok(false)
  }

  /** What `is_valid` returns. The checksum is the text after the first
      `[` with trailing `]` removed. */
  function IsValid(line: string): Result<bool> {
    match SplitOnce(line, "[")
    case None => Panic("called `Option::unwrap()` on a `None` value")
    case Some((_, after)) => Compare(TrimEndMatches(after, "]"), Ranking(NameLetters(line)))
  }

  // ---------------------------------------------------------------------
  // `is_valid`, step by step

  /** The `for c in ...` loop filling `char_counts`. */
  method CountLetters(letters: string) returns (counts: map<char, nat>)
    ensures forall c :: c in counts <==> c in letters
    ensures forall c :: c in counts ==> counts[c] == Count(letters, c)
  {
    counts := map[];
    for k := 0 to |letters|
      invariant forall c :: c in counts <==> c in letters[..k]
      invariant forall c :: c in counts ==> counts[c] == Count(letters[..k], c)
    {
      var c := letters[k];
      assert letters[..k + 1] == letters[..k] + [c];
      if c in counts {
        counts := counts[c := counts[c] + 1];
      } else {
        counts := counts[c := 1];
      }
    }
    assert letters[..|letters|] == letters;
  }

  /** `char_counts.into_iter().collect()`: the entries in an order the map
      does not fix, so the letter picked next is left open. */
  method Collect(counts: map<char, nat>) returns (items: seq<(char, nat)>)
    ensures NoDuplicates(items)
    ensures forall i :: 0 <= i < |items| ==> items[i].0 in counts && items[i].1 == counts[items[i].0]
    ensures forall c :: c in counts ==> exists i :: 0 <= i < |items| && items[i].0 == c
  {
    items := [];
    var left := counts.Keys;
    while left != {}
      invariant left <= counts.Keys
      invariant NoDuplicates(items)
      invariant forall i :: 0 <= i < |items| ==> items[i].0 in counts && items[i].0 !in left && items[i].1 == counts[items[i].0]
      invariant forall c :: c in counts && c !in left ==> exists i :: 0 <= i < |items| && items[i].0 == c
      decreases left
    {
      var c :| c in left;
      ghost var before := items;
      items := items + [(c, counts[c])];
      left := left - {c};
      forall d | d in counts && d !in left ensures exists i :: 0 <= i < |items| && items[i].0 == d {
        if d == c {
          assert items[|items| - 1].0 == d;
        } else {
          var i :| 0 <= i < |before| && before[i].0 == d;
          assert items[i].0 == d;
        }
      }
    }
  }

  /** `is_valid` as written, with the map, the sort and the comparison
      loop; its answer does not depend on the order the map yields. */
  method CheckRoom(line: string) returns (r: Result<bool>)
    ensures r == IsValid(line)
  {
    var letters := NameLetters(line);
    var counts := CountLetters(letters);
    var items := Collect(counts);
    var ranked := RankSort(items);
    CollectedRanking(letters, items);
    var parts := SplitOnce(line, "[");
    if parts.None? {
      return Panic("called `Option::unwrap()` on a `None` value");
    }
    r := CompareLoop(TrimEndMatches(parts.value.1, "]"), ranked);
  }

  /** `for i in 0..checksum.len()` with its early `return false` and the
      index into `counts`. */
  method CompareLoop(checksum: string, ranked: seq<(char, nat)>) returns (r: Result<bool>)
    ensures r == Compare(checksum, ranked)
  {
    for i := 0 to |checksum|
      invariant i <= |ranked| && Matches(checksum, ranked, i)
    {
      if i >= |ranked| {
        return Panic("index out of bounds");
      }
      if checksum[i] != ranked[i].0 {
        return Ok(false);
      }
    }
    r := Ok(true);
  }

  /** `get_sector_id`: the last `-` field of the text before `[`, as `u32`. */
  function SectorId(line: string): Result<nat> {
    match SplitOnce(line, "[")
    case None => Panic("called `Option::unwrap()` on a `None` value")
    case Some((before, _)) =>
      match ParseU32(AfterLast(before, '-'))
      case None => Panic("called `Result::unwrap()` on an `Err` value")
      case Some(id) => Ok(id)
  }

  function Backwards(s: string): (r: string)
    ensures |r| == |s|
    ensures forall i :: 0 <= i < |s| ==> r[i] == s[|s| - 1 - i]
  {
    seq(|s|, i requires 0 <= i < |s| => s[|s| - 1 - i])
  }

  /** `get_room_name`: the text before `[`, reversed, split once at `-`, and
      the rest reversed back. */
  function RoomName(line: string): Result<string> {
    match SplitOnce(line, "[")
    case None => Panic("called `Option::unwrap()` on a `None` value")
    case Some((before, _)) =>
      match SplitOnce(Backwards(before), "-")
      case None => Panic("called `Option::unwrap()` on a `None` value")
      case Some((_, rest)) => Ok(Backwards(rest))
  }

  /** The `map` in `main`: `-` becomes a space; any other character is
      taken as a `u8`, shifted by `sector_id % 26` and wrapped within
      `a..=z`. `c as u8` keeps the low byte; a sum above 255 or below `'a'`
      overflows and panics. */
  function DecryptChar(c: char, id: nat): (r: Result<char>)
  {
    if c == '-' then Ok(' ')
    else
      var sum := (c as int) % 256 + id % 26;
      if sum > 255 then Panic("attempt to add with overflow")
      else if sum < 'a' as int then Panic("attempt to subtract with overflow")
      else Ok(((sum - 'a' as int) % 26 + 'a' as int) as char)
  }

  function Decrypt(name: string, id: nat): (r: Result<string>)
    ensures r.Ok? ==> |r.value| == |name|
    decreases |name|
  {
    if name == [] then Ok([])
    else
      match DecryptChar(name[0], id)
      case Panic(why) => Panic(why)
      case Ok(c) =>
        match Decrypt(name[1..], id)
        case Panic(why) => Panic(why)
        case Ok(rest) => Ok([c] + rest)
  }

  /** `filter` with a test that may panic: the lines the test accepts, in
      order, or the panic of the first line whose test panics. */
  function FilterChecked(lines: seq<string>, test: string -> Result<bool>): (r: Result<seq<string>>)
    ensures r.Panic? <==> exists i :: 0 <= i < |lines| && test(lines[i]).Panic?
    ensures r.Ok? ==> |r.value| <= |lines|
    decreases |lines|
  {
    if lines == [] then Ok([])
    else
      match test(lines[0])
      case Panic(why) => Panic(why)
      case Ok(b) =>
        match FilterChecked(lines[1..], test)
        case Panic(why) =>
          assert forall i :: 1 <= i < |lines| ==> lines[1..][i - 1] == lines[i];
          Panic(why)
        case Ok(rest) =>
          assert forall i :: 1 <= i < |lines| ==> lines[1..][i - 1] == lines[i];
          Ok(if b then [lines[0]] + rest else rest)
  }

  /** The lines kept by `filter(is_valid)`; a panic in any check ends the
      run. */
  function GoodRooms(lines: seq<string>): (r: Result<seq<string>>)
    ensures r.Panic? <==> exists i :: 0 <= i < |lines| && IsValid(lines[i]).Panic?
    ensures r.Ok? ==> |r.value| <= |lines|
  {
    FilterChecked(lines, IsValid)
  }

  /** `map(value).sum()` with a value that may panic: the sum of the values,
      or the panic of the first item whose value panics. */
  function SumChecked(items: seq<string>, value: string -> Result<nat>): (r: Result<nat>)
    ensures r.Panic? <==> exists i :: 0 <= i < |items| && value(items[i]).Panic?
    ensures |items| == 1 ==> r == value(items[0])
    decreases |items|
  {
    if items == [] then Ok(0)
    else
      match value(items[0])
      case Panic(why) => Panic(why)
      case Ok(id) =>
        match SumChecked(items[1..], value)
        case Panic(why) =>
          assert forall i :: 1 <= i < |items| ==> items[1..][i - 1] == items[i];
          Panic(why)
        case Ok(n) =>
          assert forall i :: 1 <= i < |items| ==> items[1..][i - 1] == items[i];
          Ok(id + n)
  }

  /** The part-1 `sum()` of the sector ids of the kept lines. */
  function SectorSum(rooms: seq<string>): (r: Result<nat>)
    ensures r.Panic? <==> exists i :: 0 <= i < |rooms| && SectorId(rooms[i]).Panic?
    ensures |rooms| == 1 ==> r == SectorId(rooms[0])
  {
    SumChecked(rooms, SectorId)
  }

  // ---------------------------------------------------------------------
  // Properties

  /** A kept line occurs as often as in the input when the test accepts
      it, and not at all otherwise. */
  lemma {:induction false} FilterCount(lines: seq<string>, test: string -> Result<bool>, x: string)
    requires FilterChecked(lines, test).Ok?
    ensures multiset(FilterChecked(lines, test).value)[x] == if test(x) == Ok(true) then multiset(lines)[x] else 0
    decreases |lines|
  {
    if lines != [] {
      assert test(lines[0]).Ok?;
      FilterCount(lines[1..], test, x);
      assert lines == [lines[0]] + lines[1..];
    }
  }

  /** The kept lines of a concatenation are the kept lines of each part in
      turn: `filter` keeps the input order. */
  lemma {:induction false} FilterConcat(a: seq<string>, b: seq<string>, test: string -> Result<bool>)
    requires FilterChecked(a, test).Ok? && FilterChecked(b, test).Ok?
    ensures FilterChecked(a + b, test) == Ok(FilterChecked(a, test).value + FilterChecked(b, test).value)
    decreases |a|
  {
    if a == [] {
      assert a + b == b;
      assert FilterChecked(a, test).value + FilterChecked(b, test).value == FilterChecked(b, test).value;
    } else {
      assert (a + b)[0] == a[0] && (a + b)[1..] == a[1..] + b;
      assert test(a[0]).Ok?;
      assert FilterChecked(a[1..], test).Ok? by {
        forall i | 0 <= i < |a[1..]| ensures test(a[1..][i]).Ok? {
          assert a[1..][i] == a[i + 1];
        }
      }
      FilterConcat(a[1..], b, test);
      var x, y := FilterChecked(a[1..], test).value, FilterChecked(b, test).value;
      if test(a[0]) == Ok(true) {
        assert FilterChecked(a, test).value == [a[0]] + x;
        assert FilterChecked(a + b, test).value == [a[0]] + (x + y);
        assert [a[0]] + (x + y) == ([a[0]] + x) + y;
      } else {
        assert FilterChecked(a, test).value == x;
        assert FilterChecked(a + b, test).value == x + y;
      }
    }
  }
  /** A line is kept exactly when it is a line of the input that
      `is_valid` accepts. */
  lemma GoodRoomsKept(lines: seq<string>, x: string)
    requires GoodRooms(lines).Ok?
    ensures x in GoodRooms(lines).value <==> x in lines && IsValid(x) == Ok(true)
    ensures multiset(GoodRooms(lines).value)[x] == if IsValid(x) == Ok(true) then multiset(lines)[x] else 0
  {
    FilterCount(lines, IsValid, x);
    var kept := GoodRooms(lines).value;
    assert x in kept <==> multiset(kept)[x] > 0;
    assert x in lines <==> multiset(lines)[x] > 0;
  }

  lemma GoodRoomsConcat(a: seq<string>, b: seq<string>)
    requires GoodRooms(a).Ok? && GoodRooms(b).Ok?
    ensures GoodRooms(a + b) == Ok(GoodRooms(a).value + GoodRooms(b).value)
  {
    FilterConcat(a, b, IsValid);
  }

  /** The sum over a concatenation is the sum of the two parts. */
  lemma {:induction false} SumConcat(a: seq<string>, b: seq<string>, value: string -> Result<nat>)
    requires SumChecked(a, value).Ok? && SumChecked(b, value).Ok?
    ensures SumChecked(a + b, value) == Ok(SumChecked(a, value).value + SumChecked(b, value).value)
    decreases |a|
  {
    if a == [] {
      assert a + b == b;
    } else {
      assert (a + b)[0] == a[0] && (a + b)[1..] == a[1..] + b;
      assert value(a[0]).Ok?;
      assert SumChecked(a[1..], value).Ok? by {
        forall i | 0 <= i < |a[1..]| ensures value(a[1..][i]).Ok? {
          assert a[1..][i] == a[i + 1];
        }
      }
      SumConcat(a[1..], b, value);
    }
  }

  lemma SectorSumConcat(a: seq<string>, b: seq<string>)
    requires SectorSum(a).Ok? && SectorSum(b).Ok?
    ensures SectorSum(a + b).Ok? && SectorSum(a + b).value == SectorSum(a).value + SectorSum(b).value
  {
    var ids: string -> Result<nat> := SectorId;
    assert SectorSum(a) == SumChecked(a, ids) && SectorSum(b) == SumChecked(b, ids);
    assert SectorSum(a + b) == SumChecked(a + b, ids);
    SumConcat(a, b, ids);
  }

  /** Each sector id is a u32, so the sum is at most `u32::MAX` per room. */
  lemma SectorSumBound(rooms: seq<string>)
    requires SectorSum(rooms).Ok?
    ensures SectorSum(rooms).value <= |rooms| * U32_MAX
  {
    var ids: string -> Result<nat> := SectorId;
    forall i | 0 <= i < |rooms| && ids(rooms[i]).Ok?
      ensures ids(rooms[i]).value <= U32_MAX
    {
      SectorIdBound(rooms[i]);
    }
    assert SectorSum(rooms) == SumChecked(rooms, ids);
    SumBound(rooms, ids, U32_MAX);
  }

  lemma SectorIdBound(line: string)
    requires SectorId(line).Ok?
    ensures SectorId(line).value <= U32_MAX
  {
  }

  /** A sum of values each at most `bound` is at most `bound` per item. */
  lemma {:induction false} SumBound(items: seq<string>, value: string -> Result<nat>, bound: nat)
    requires SumChecked(items, value).Ok?
    requires forall i :: 0 <= i < |items| && value(items[i]).Ok? ==> value(items[i]).value <= bound
    ensures SumChecked(items, value).value <= |items| * bound
    decreases |items|
  {
    if items != [] {
      assert forall i :: 1 <= i < |items| ==> items[1..][i - 1] == items[i];
      SumBound(items[1..], value, bound);
      assert SumChecked(items, value).value == value(items[0]).value + SumChecked(items[1..], value).value;
    }
  }

  /** Counting skips `-` and stops at the first character that is neither
      `-` nor a lower-case letter. */
  lemma {:induction false} NameLettersStop(line: string, k: nat)
    requires k < |line| && line[k] != '-' && !IsLower(line[k])
    ensures NameLetters(line) == NameLetters(line[..k])
    decreases k
  {
    if k > 0 {
      assert line[..k][0] == line[0] && line[..k][1..] == line[1..][..k - 1];
      NameLettersStop(line[1..], k - 1);
    }
  }

  /** On a text of letters and dashes only, every letter is counted as
      often as it occurs, and `-` not at all. */
  lemma {:induction false} NameLettersOfName(s: string, c: char)
    requires forall i :: 0 <= i < |s| ==> s[i] == '-' || IsLower(s[i])
    ensures Count(NameLetters(s), c) == if c == '-' then 0 else Count(s, c)
    decreases |s|
  {
    if s != [] {
      NameLettersOfName(s[1..], c);
      assert s == [s[0]] + s[1..];
    }
  }

  /** Sorting the collected entries gives the ranking, whatever order the
      map yielded them in. */
  lemma CollectedRanking(letters: string, items: seq<(char, nat)>)
    requires NoDuplicates(items)
    requires forall i :: 0 <= i < |items| ==> items[i].0 in letters && items[i].1 == Count(letters, items[i].0)
    requires forall c :: c in letters ==> exists i :: 0 <= i < |items| && items[i].0 == c
    ensures RankSort(items) == Ranking(letters)
  {
    RankIsTotal();
    SameEntries(letters, items);
    SortedUnique(RankSort(items), Ranking(letters), RankLe);
  }

  /** The entries in any duplicate-free order with the right counts are the
      same multiset as `Entries`. */
  lemma SameEntries(letters: string, items: seq<(char, nat)>)
    requires NoDuplicates(items)
    requires forall i :: 0 <= i < |items| ==> items[i].0 in letters && items[i].1 == Count(letters, items[i].0)
    requires forall c :: c in letters ==> exists i :: 0 <= i < |items| && items[i].0 == c
    ensures multiset(items) == multiset(Entries(letters))
  {
    NoDuplicateEntries(letters);
    forall x: (char, nat) ensures multiset(items)[x] == multiset(Entries(letters))[x] {
      SameCount(letters, items, x);
    }
  }

  lemma SameCount(letters: string, items: seq<(char, nat)>, x: (char, nat))
    requires NoDuplicates(items) && NoDuplicates(Entries(letters))
    requires forall i :: 0 <= i < |items| ==> items[i].0 in letters && items[i].1 == Count(letters, items[i].0)
    requires forall c :: c in letters ==> exists i :: 0 <= i < |items| && items[i].0 == c
    requires forall c :: c in letters ==> exists j :: 0 <= j < |Entries(letters)| && Entries(letters)[j].0 == c
    ensures multiset(items)[x] == multiset(Entries(letters))[x]
  {
    var e := Entries(letters);
    OnceEach(items, x);
    OnceEach(e, x);
    if x in items {
      var i :| 0 <= i < |items| && items[i] == x;
      var j :| 0 <= j < |e| && e[j].0 == x.0;
      assert e[j] == x;
    }
    if x in e {
      var j :| 0 <= j < |e| && e[j] == x;
      assert Distinct(letters)[j] in Distinct(letters);
      var i :| 0 <= i < |items| && items[i].0 == x.0;
      assert items[i] == x;
    }
  }

  lemma NoDuplicateEntries(s: string)
    ensures NoDuplicates(Entries(s))
    ensures forall c :: c in s ==> exists j :: 0 <= j < |Entries(s)| && Entries(s)[j].0 == c
  {
    var d := Distinct(s);
    forall c | c in s ensures exists j :: 0 <= j < |Entries(s)| && Entries(s)[j].0 == c {
      var j :| 0 <= j < |d| && d[j] == c;
      assert Entries(s)[j].0 == c;
    }
  }

  /** In a sequence without duplicates each element occurs once. */
  lemma {:induction false} OnceEach<T>(s: seq<T>, x: T)
    requires NoDuplicates(s)
    ensures multiset(s)[x] == if x in s then 1 else 0
    decreases |s|
  {
    if s != [] {
      assert s == [s[0]] + s[1..];
      OnceEach(s[1..], x);
    }
  }

  /** The ranking holds every counted letter, each with its count. */
  lemma RankingEntries(s: string)
    ensures var r := Ranking(s);
      forall i :: 0 <= i < |r| ==> r[i].0 in s && r[i].1 == Count(s, r[i].0)
    ensures var r := Ranking(s);
      forall c :: c in s ==> exists i :: 0 <= i < |r| && r[i].0 == c
  {
    var r := Ranking(s);
    var e := Entries(s);
    NoDuplicateEntries(s);
    forall i | 0 <= i < |r| ensures r[i].0 in s && r[i].1 == Count(s, r[i].0) {
      assert r[i] in multiset(e);
      var j :| 0 <= j < |e| && e[j] == r[i];
      assert Distinct(s)[j] in Distinct(s);
    }
    forall c | c in s ensures exists i :: 0 <= i < |r| && r[i].0 == c {
      var j :| 0 <= j < |e| && e[j].0 == c;
      assert e[j] in multiset(r);
    }
  }

  /** The ranking lists each letter once, the higher count first and ties
      by the smaller letter. */
  lemma RankingStrict(s: string)
    ensures var r := Ranking(s);
      forall i, j :: 0 <= i < j < |r| ==> r[i].1 > r[j].1 || (r[i].1 == r[j].1 && r[i].0 < r[j].0)
  {
    var r := Ranking(s);
    var e := Entries(s);
    NoDuplicateEntries(s);
    RankingEntries(s);
    forall i, j | 0 <= i < j < |r| ensures r[i].1 > r[j].1 || (r[i].1 == r[j].1 && r[i].0 < r[j].0) {
      assert RankLe(r[i], r[j]);
      DistinctRanks(s, i, j);
    }
  }

  /** Two ranks never hold the same letter. */
  lemma DistinctRanks(s: string, i: nat, j: nat)
    requires i < j < |Ranking(s)|
    ensures Ranking(s)[i].0 != Ranking(s)[j].0
  {
    var r := Ranking(s);
    var e := Entries(s);
    if r[i].0 == r[j].0 {
      NoDuplicateEntries(s);
      RankingEntries(s);
      assert r[i] == r[j];
      TwiceCounted(r, i, j);
      OnceEach(e, r[i]);
    }
  }

  lemma TwiceCounted<T>(r: seq<T>, i: nat, j: nat)
    requires i < j < |r| && r[i] == r[j]
    ensures multiset(r)[r[i]] >= 2
  {
    assert r == r[..j] + [r[j]] + r[j + 1..];
    assert r[i] in r[..j];
  }

  /** A room is real exactly when each checksum character is the letter at
      the same rank; an unreadable line panics. */
  lemma IsValidMeaning(line: string)
    ensures IsValid(line).Panic? <==>
      SplitOnce(line, "[").None?
      || (var checksum := TrimEndMatches(SplitOnce(line, "[").value.1, "]");
          var ranked := Ranking(NameLetters(line));
          |checksum| > |ranked| && Matches(checksum, ranked, |ranked|))
    ensures IsValid(line) == Ok(true) <==>
      SplitOnce(line, "[").Some?
      && (var checksum := TrimEndMatches(SplitOnce(line, "[").value.1, "]");
          var ranked := Ranking(NameLetters(line));
          |checksum| <= |ranked| && forall k :: 0 <= k < |checksum| ==> checksum[k] == ranked[k].0)
  {
  }

  lemma BackwardsTwice(s: string)
    ensures Backwards(Backwards(s)) == s
  {
  }

  /** The room name is the text before `[` without its last `-` and what
      follows: that text is the name, a `-`, and a tail without `-`. */
  lemma RoomNameMeaning(line: string)
    requires RoomName(line).Ok?
    ensures SplitOnce(line, "[").Some?
    ensures exists tail :: SplitOnce(line, "[").value.0 == RoomName(line).value + "-" + tail && '-' !in tail
  {
    var before := SplitOnce(line, "[").value.0;
    var b := Backwards(before);
    var parts := SplitOnce(b, "-").value;
    SplitOnceFirst(b, '-');
    BackwardsAround(parts.0, parts.1);
    BackwardsTwice(before);
    var tail := Backwards(parts.0);
    assert '-' !in tail;
    assert before == RoomName(line).value + "-" + tail;
  }

  lemma BackwardsAround(x: string, y: string)
    ensures Backwards(x + "-" + y) == Backwards(y) + "-" + Backwards(x)
  {
  }

  /** With the sector id: the text before `[` is the room name, a `-`, and
      the id's field. */
  lemma NameAndSector(line: string)
    requires RoomName(line).Ok? && SectorId(line).Ok?
    ensures SplitOnce(line, "[").value.0 == RoomName(line).value + "-" + AfterLast(SplitOnce(line, "[").value.0, '-')
  {
    RoomNameMeaning(line);
    var before := SplitOnce(line, "[").value.0;
    var name := RoomName(line).value;
    var tail :| before == name + "-" + tail && '-' !in tail;
    var field := AfterLast(before, '-');
    assert before[|before| - |tail|..] == tail;
    assert before[|before| - |tail| - 1] == '-';
    assert field == tail;
  }

  /** On a lower-case letter the cipher rotates within `a..=z` by the id
      modulo 26, and `-` becomes a space. */
  lemma DecryptCharMeaning(c: char, id: nat)
    ensures c == '-' ==> DecryptChar(c, id) == Ok(' ')
    ensures IsLower(c) ==> DecryptChar(c, id).Ok? && IsLower(DecryptChar(c, id).value)
    ensures IsLower(c) ==> DecryptChar(c, id).value as int - 'a' as int == (c as int - 'a' as int + id) % 26
  {
    if IsLower(c) {
      var k := c as int - 'a' as int;
      assert 0 <= k < 26 && 0 <= id % 26 < 26;
      assert (c as int) % 256 == c as int;
      var sum := c as int + id % 26;
      assert sum - 'a' as int == k + id % 26;
      ModAdd(k, id, 26);
    }
  }

  /** Shifting by the id and then by the rest of 26 restores a letter. */
  lemma DecryptCharInverse(c: char, id: nat)
    requires IsLower(c)
    ensures DecryptChar(DecryptChar(c, id).value, 26 - id % 26) == Ok(c)
  {
    DecryptCharMeaning(c, id);
    var d := DecryptChar(c, id).value;
    var k := c as int - 'a' as int;
    var t := 26 - id % 26;
    DecryptCharMeaning(d, t);
    ModAdd(k, id, 26);
    assert d as int - 'a' as int == (k + id % 26) % 26;
    ModAdd(t, k + id % 26, 26);
    ModSmall(k + 26, 26);
  }

  /** A name of letters and dashes decrypts without panic, keeping its
      length and its dashes' positions (as spaces). */
  lemma {:induction false} DecryptMeaning(name: string, id: nat)
    requires forall i :: 0 <= i < |name| ==> name[i] == '-' || IsLower(name[i])
    ensures Decrypt(name, id).Ok?
    ensures forall i :: 0 <= i < |name| ==> DecryptChar(name[i], id).Ok? && Decrypt(name, id).value[i] == DecryptChar(name[i], id).value
    decreases |name|
  {
    if name != [] {
      DecryptCharMeaning(name[0], id);
      DecryptMeaning(name[1..], id);
    }
  }
}
