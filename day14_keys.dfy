/** day14: one-time-pad keys. The hex MD5 digest of the salt followed by an
    index is a key when it holds three equal characters in a row and one
    of the next 1000 digests holds five of that character in a row; the
    program reports the index of the 64th key. The digests themselves are
    an input here: MD5 and its 2016-fold stretching are not part of this
    model. */
module OneTimePad {
  import opened Common
  import opened Sorting

  // ---------------------------------------------------------------------
  // get_repeats

  /** `last_char_count` after the first k characters: the length of the
      run of equal characters ending at position k - 1. */
  function Count(s: string, k: nat): (n: nat)
    requires 1 <= k <= |s|
    ensures 1 <= n <= k
  {
    if k >= 2 && s[k - 1] == s[k - 2] then Count(s, k - 1) + 1 else 1
  }

  /** The n characters ending at position k - 1 are all equal. */
  predicate RunEndsAt(s: string, k: nat, n: nat)
    requires k <= |s|
  {
    1 <= n <= k && forall j :: k - n <= j < k ==> s[j] == s[k - 1]
  }

  /** `triple` after the first k characters: the character of the first run
      to reach length 3. */
  function TripleUpTo(s: string, k: nat): Option<char>
    requires k <= |s|
  {
    if k == 0 then None
    else
      var t := TripleUpTo(s, k - 1);
      if Count(s, k) == 3 && t.None? then Some(s[k - 1]) else t
  }

  /** `quintuples` after the first k characters, before sorting: one entry
      each time a run reaches length 5. */
  function FivesUpTo(s: string, k: nat): seq<char>
    requires k <= |s|
  {
    if k == 0 then []
    else FivesUpTo(s, k - 1) + (if Count(s, k) == 5 then [s[k - 1]] else [])
  }

  predicate CharLe(a: char, b: char) {
    a <= b
  }

  /** `Vec::dedup`: consecutive equal elements collapse into one. */
  function Dedup(s: seq<char>): (r: seq<char>)
    ensures forall c :: c in r <==> c in s
    ensures SortedBy(s, CharLe) ==> forall i, j :: 0 <= i < j < |r| ==> r[i] < r[j]
    decreases |s|
  {
    if |s| <= 1 then s
    else
      var rest := Dedup(s[1..]);
      assert s[1..][0] == s[1];
      assert SortedBy(s, CharLe) ==> SortedBy(s[1..], CharLe);
      if s[0] == s[1] then rest
      else
        assert forall i :: 0 <= i < |rest| ==> rest[i] in s[1..];
        assert SortedBy(s, CharLe) ==> forall i :: 0 <= i < |rest| ==> s[0] < rest[i];
        [s[0]] + rest
  }

  /** The first result of `get_repeats`. */
  function Triple(digest: string): Option<char> {
    TripleUpTo(digest, |digest|)
  }

  /** The second result: `quintuples.sort(); quintuples.dedup();`. */
  function Quintuples(digest: string): seq<char> {
    assert TotalPreorder(CharLe);
    Dedup(SortBy(FivesUpTo(digest, |digest|), CharLe))
  }

  /** `get_repeats`: one pass over the characters, keeping the last
      character and the length of its run; `last_char` starts as `'Z'`
      with a count of 0, which a first character `'Z'` brings to 1 as any
      other first character does. */
  method GetRepeats(digest: string) returns (triple: Option<char>, quintuples: seq<char>)
    ensures triple == Triple(digest)
    ensures quintuples == Quintuples(digest)
  {
    var lastChar := 'Z';
    var lastCount: nat := 0;
    triple := None;
    var fives: seq<char> := [];
    for k := 0 to |digest|
      invariant k == 0 ==> lastChar == 'Z' && lastCount == 0
      invariant k > 0 ==> lastChar == digest[k - 1] && lastCount == Count(digest, k)
      invariant triple == TripleUpTo(digest, k)
      invariant fives == FivesUpTo(digest, k)
    {
      var c := digest[k];
      if c == lastChar {
        lastCount := lastCount + 1;
        if lastCount == 3 && triple.None? {
          triple := Some(c);
        }
        if lastCount == 5 {
          fives := fives + [lastChar];
        }
      } else {
        lastChar := c;
        lastCount := 1;
      }
    }
    assert TotalPreorder(CharLe);
    quintuples := Dedup(SortBy(fives, CharLe));
  }

  // ---------------------------------------------------------------------
  // Properties of get_repeats

  /** The counter is the run length: it is at least n exactly when the n
      characters ending there are equal. */
  lemma {:induction false} CountMeaning(s: string, k: nat, n: nat)
    requires 1 <= k <= |s| && n >= 1
    ensures Count(s, k) >= n <==> RunEndsAt(s, k, n)
    decreases k
  {
    if n > 1 {
      if k >= 2 && s[k - 1] == s[k - 2] {
        CountMeaning(s, k - 1, n - 1);
        if RunEndsAt(s, k - 1, n - 1) {
          assert RunEndsAt(s, k, n);
        }
        if RunEndsAt(s, k, n) {
          assert RunEndsAt(s, k - 1, n - 1);
        }
      } else if k >= 2 {
        assert !(s[k - 2] == s[k - 1]);
      }
    }
  }

  /** A run reaching n passed through n on the way: some earlier end of
      the same character counts exactly n. */
  lemma {:induction false} CountPassesThrough(s: string, k: nat, n: nat)
    requires 1 <= k <= |s| && 1 <= n <= Count(s, k)
    ensures exists k' :: 1 <= k' <= k && Count(s, k') == n && s[k' - 1] == s[k - 1]
    decreases k
  {
    if Count(s, k) > n {
      CountPassesThrough(s, k - 1, n);
    }
  }

  /** The first run to reach 3: `TripleUpTo` holds the character at the
      first end whose count is at least 3, and nothing when there is none. */
  lemma {:induction false} TripleUpToMeaning(s: string, k: nat)
    requires k <= |s|
    ensures TripleUpTo(s, k).None? <==> forall k' :: 1 <= k' <= k ==> Count(s, k') < 3
    ensures TripleUpTo(s, k).Some? ==> exists k' :: FirstTripleEnd(s, k', k) && TripleUpTo(s, k).value == s[k' - 1]
    decreases k
  {
    if k > 0 {
      TripleUpToMeaning(s, k - 1);
      var t := TripleUpTo(s, k - 1);
      if t.Some? {
        var k' :| FirstTripleEnd(s, k', k - 1) && t.value == s[k' - 1];
        assert FirstTripleEnd(s, k', k);
      } else if Count(s, k) == 3 {
        assert FirstTripleEnd(s, k, k);
      } else if k >= 2 {
        assert Count(s, k - 1) < 3;
      }
    }
  }

  /** k' ends the first run of three within the first k characters. */
  predicate FirstTripleEnd(s: string, k': nat, k: nat)
    requires k <= |s|
  {
    1 <= k' <= k && Count(s, k') >= 3 && forall k'' :: 1 <= k'' < k' ==> Count(s, k'') < 3
  }

  /** `triple` is the character of the first run of three equal
      characters, and is there exactly when such a run exists. */
  lemma TripleMeaning(digest: string)
    ensures Triple(digest).Some? <==> exists k :: 1 <= k <= |digest| && RunEndsAt(digest, k, 3)
    ensures Triple(digest).Some? ==> exists k :: (1 <= k <= |digest| && RunEndsAt(digest, k, 3) && Triple(digest).value == digest[k - 1] &&
      forall k' :: 1 <= k' < k ==> !RunEndsAt(digest, k', 3))
  {
    TripleUpToMeaning(digest, |digest|);
    forall k | 1 <= k <= |digest| ensures Count(digest, k) >= 3 <==> RunEndsAt(digest, k, 3) {
      CountMeaning(digest, k, 3);
    }
    if Triple(digest).Some? {
      var k :| FirstTripleEnd(digest, k, |digest|) && Triple(digest).value == digest[k - 1];
      assert RunEndsAt(digest, k, 3);
    } else {
      forall k | 1 <= k <= |digest| ensures !RunEndsAt(digest, k, 3) {
        CountMeaning(digest, k, 3);
      }
    }
  }

  /** A character enters the unsorted `quintuples` exactly when one of its
      runs reaches 5. */
  lemma {:induction false} FivesUpToMeaning(s: string, k: nat, c: char)
    requires k <= |s|
    ensures c in FivesUpTo(s, k) <==> exists k' :: 1 <= k' <= k && Count(s, k') >= 5 && s[k' - 1] == c
    decreases k
  {
    if k > 0 {
      FivesUpToMeaning(s, k - 1, c);
      if Count(s, k) >= 5 && s[k - 1] == c {
        CountPassesThrough(s, k, 5);
      }
    }
  }

  /** The unsorted `quintuples` holds exactly the characters with a run
      of five or more. */
  lemma FivesMeaning(digest: string, c: char)
    ensures c in FivesUpTo(digest, |digest|) <==> exists k :: 1 <= k <= |digest| && RunEndsAt(digest, k, 5) && digest[k - 1] == c
  {
    FivesUpToMeaning(digest, |digest|, c);
    if c in FivesUpTo(digest, |digest|) {
      var k :| 1 <= k <= |digest| && Count(digest, k) >= 5 && digest[k - 1] == c;
      CountMeaning(digest, k, 5);
    }
    if exists k :: 1 <= k <= |digest| && RunEndsAt(digest, k, 5) && digest[k - 1] == c {
      var k :| 1 <= k <= |digest| && RunEndsAt(digest, k, 5) && digest[k - 1] == c;
      CountMeaning(digest, k, 5);
    }
  }

  /** `quintuples` holds, in ascending order and once each, exactly the
      characters with a run of five or more. */
  lemma QuintuplesMeaning(digest: string, c: char)
    ensures c in Quintuples(digest) <==> exists k :: 1 <= k <= |digest| && RunEndsAt(digest, k, 5) && digest[k - 1] == c
    ensures forall i, j :: 0 <= i < j < |Quintuples(digest)| ==> Quintuples(digest)[i] < Quintuples(digest)[j]
  {
    assert TotalPreorder(CharLe);
    var fives := FivesUpTo(digest, |digest|);
    var sorted := SortBy(fives, CharLe);
    assert c in sorted <==> c in fives by {
      assert c in sorted <==> c in multiset(sorted);
      assert c in fives <==> c in multiset(fives);
    }
    FivesMeaning(digest, c);
  }

  /** A run of five holds a run of three, so a digest with a quintuple
      always has a triple. */
  lemma FiveHasTriple(digest: string)
    requires Quintuples(digest) != []
    ensures Triple(digest).Some?
  {
    var c := Quintuples(digest)[0];
    QuintuplesMeaning(digest, c);
    var k :| 1 <= k <= |digest| && RunEndsAt(digest, k, 5) && digest[k - 1] == c;
    assert RunEndsAt(digest, k, 3);
    TripleMeaning(digest);
  }

  /** Inside one run the counter climbs by one per character. */
  lemma {:induction false} CountWithinRun(s: string, k1: nat, k2: nat)
    requires 1 <= k1 <= k2 <= |s| && Count(s, k2) > k2 - k1
    ensures Count(s, k1) == Count(s, k2) - (k2 - k1)
    decreases k2
  {
    if k1 < k2 {
      CountWithinRun(s, k1, k2 - 1);
    }
  }

  /** A run longer than five reaches a count of 5 at one position only, so
      it adds one entry to `quintuples`. */
  lemma RunReportedOnce(s: string, k1: nat, k2: nat)
    requires 1 <= k1 < k2 <= |s| && Count(s, k2) > k2 - k1
    ensures !(Count(s, k1) == 5 && Count(s, k2) == 5)
  {
    CountWithinRun(s, k1, k2);
  }

  // ---------------------------------------------------------------------
  // The key search

  /** Digest j is confirmed as a key by the digests before n: it has a
      triple, and one of the next 1000 digests, before n, holds five of
      that character. */
  predicate Confirmed(digests: seq<string>, j: int, n: int) {
    0 <= j < |digests| && Triple(digests[j]).Some? &&
    exists m :: j < m <= j + 1000 && m < n && m < |digests| && Triple(digests[j]).value in Quintuples(digests[m])
  }

  /** The puzzle's key, as far as the given digests reach. */
  predicate IsKey(digests: seq<string>, j: int) {
    Confirmed(digests, j, |digests|)
  }

  predicate Increasing(s: seq<int>) {
    forall a, b :: 0 <= a < b < |s| ==> s[a] < s[b]
  }

  /** The keys below n, in ascending order: a reference for the answer. */
  function KeysBelow(digests: seq<string>, n: nat): (r: seq<int>)
    ensures Increasing(r)
    ensures forall j :: j in r <==> 0 <= j < n && IsKey(digests, j)
    decreases n
  {
    if n == 0 then []
    else
      var prev := KeysBelow(digests, n - 1);
      assert forall a :: 0 <= a < |prev| ==> prev[a] in prev;
      prev + (if IsKey(digests, n - 1) then [n - 1] else [])
  }

  /** `key_indexes.insert(j)`. The set is kept in ascending order, which is
      the order `iter().sorted()` lists it in. */
  function AddKey(keys: seq<int>, j: int): (r: seq<int>)
    requires Increasing(keys)
    ensures Increasing(r)
    ensures forall x :: x in r <==> x in keys || x == j
    decreases |keys|
  {
    if keys == [] then [j]
    else if j == keys[0] then keys
    else if j < keys[0] then
      assert forall a :: 0 <= a < |keys| ==> keys[0] <= keys[a];
      [j] + keys
    else
      var rest := AddKey(keys[1..], j);
      assert forall a :: 0 <= a < |rest| ==> rest[a] in rest;
      assert forall x :: x in keys[1..] ==> keys[0] < x;
      [keys[0]] + rest
  }

  /** `seen_triples` holds, in increasing order of index, exactly the
      triples of the digests from lo to hi - 1. */
  predicate Window(digests: seq<string>, seen: seq<(int, char)>, lo: int, hi: int)
    requires hi <= |digests|
  {
    (forall k :: 0 <= k < |seen| ==> 0 <= seen[k].0 && lo <= seen[k].0 < hi && Triple(digests[seen[k].0]) == Some(seen[k].1)) &&
    (forall a, b :: 0 <= a < b < |seen| ==> seen[a].0 < seen[b].0) &&
    (forall j :: 0 <= j && lo <= j < hi && Triple(digests[j]).Some? ==> (j, Triple(digests[j]).value) in seen)
  }

  /** `key_indexes` holds exactly the indices the digests before n confirm,
      in ascending order. */
  ghost predicate KeysFound(digests: seq<string>, keys: seq<int>, n: int) {
    Increasing(keys) && forall j :: j in keys <==> Confirmed(digests, j, n)
  }

  /** The `'hashing` loop over the given digests; it stops at the first
      index where 64 keys are known and the 64th lies more than 1000
      indices behind, and it returns None when the digests run out first. */
  method FindKey(digests: seq<string>) returns (r: Option<int>)
    ensures r.Some? ==> IsKey(digests, r.value) && |KeysBelow(digests, r.value)| == 63
  {
    var i := 0;
    var seen: seq<(int, char)> := [];
    var keys: seq<int> := [];
    while i < |digests|
      invariant 0 <= i <= |digests|
      invariant Window(digests, seen, i - 1001, i)
      invariant KeysFound(digests, keys, i)
    {
      var triple, quintuples := GetRepeats(digests[i]);
      seen := Prune(digests, seen, i);
      var found;
      keys, found := Scan(digests, seen, quintuples, i, keys);
      if found.Some? {
        return found;
      }
      if triple.Some? {
        seen := seen + [(i, triple.value)];
      }
      i := i + 1;
    }
    return None;
  }

  /** The first inner `loop`: pops from the front exactly the triples whose
      index is below i - 1000. */
  method Prune(digests: seq<string>, seen: seq<(int, char)>, i: int) returns (rest: seq<(int, char)>)
    requires 0 <= i <= |digests| && Window(digests, seen, i - 1001, i)
    ensures Window(digests, rest, i - 1000, i)
    ensures exists n :: 0 <= n <= |seen| && rest == seen[n..] && forall k :: 0 <= k < n ==> seen[k].0 < i - 1000
  {
    rest := seen;
    ghost var n := 0;
    while rest != [] && rest[0].0 < i - 1000
      invariant 0 <= n <= |seen| && rest == seen[n..]
      invariant forall k :: 0 <= k < n ==> seen[k].0 < i - 1000
      invariant Window(digests, rest, if n == 0 then i - 1001 else i - 1000, i)
      decreases |rest|
    {
      rest := rest[1..];
      n := n + 1;
    }
  }

  /** Every index in the list is confirmed by the digests before n. */
  ghost predicate Sound(digests: seq<string>, keys: seq<int>, n: int) {
    forall j :: j in keys ==> Confirmed(digests, j, n)
  }

  /** Every index the digests before n confirm is in the list. */
  ghost predicate Complete(digests: seq<string>, keys: seq<int>, n: int) {
    forall j :: Confirmed(digests, j, n) ==> j in keys
  }

  /** The outer `for` loop of index i, over the quintuples: afterwards the
      keys are the indices the digests up to i confirm, unless the search
      stopped with the 64th key. */
  method Scan(digests: seq<string>, seen: seq<(int, char)>, quintuples: seq<char>, i: int, keys: seq<int>)
    returns (found: seq<int>, answer: Option<int>)
    requires 0 <= i < |digests| && Window(digests, seen, i - 1000, i)
    requires quintuples == Quintuples(digests[i]) && KeysFound(digests, keys, i)
    ensures answer.None? ==> KeysFound(digests, found, i + 1)
    ensures answer.Some? ==> IsKey(digests, answer.value) && |KeysBelow(digests, answer.value)| == 63
  {
    found := keys;
    answer := None;
    for a := 0 to |quintuples|
      invariant answer.None? && Increasing(found) && Sound(digests, found, i + 1) && Complete(digests, found, i)
      invariant forall k, a' :: 0 <= a' < a && 0 <= k < |seen| && seen[k].1 == quintuples[a'] ==> seen[k].0 in found
    {
      found, answer := ScanTriples(digests, seen, quintuples[a], i, found);
      if answer.Some? {
        return;
      }
    }
    ScanComplete(digests, seen, quintuples, i, found);
  }

  /** The inner `for` loop, over the stored triples of one quintuple's
      character: each is inserted as a key, and after each insertion the
      search stops when 64 keys are known and the 64th lies more than 1000
      indices behind i. */
  method ScanTriples(digests: seq<string>, seen: seq<(int, char)>, q: char, i: int, keys: seq<int>)
    returns (found: seq<int>, answer: Option<int>)
    requires 0 <= i < |digests| && Window(digests, seen, i - 1000, i) && q in Quintuples(digests[i])
    requires Increasing(keys) && Sound(digests, keys, i + 1) && Complete(digests, keys, i)
    ensures answer.None? ==> Increasing(found) && Sound(digests, found, i + 1)
    ensures answer.None? ==> forall j :: j in keys ==> j in found
    ensures answer.None? ==> forall k :: 0 <= k < |seen| && seen[k].1 == q ==> seen[k].0 in found
    ensures answer.Some? ==> IsKey(digests, answer.value) && |KeysBelow(digests, answer.value)| == 63
  {
    found := keys;
    answer := None;
    for b := 0 to |seen|
      invariant Increasing(found) && Sound(digests, found, i + 1)
      invariant forall j :: j in keys ==> j in found
      invariant forall k :: 0 <= k < b && seen[k].1 == q ==> seen[k].0 in found
    {
      if seen[b].1 == q {
        assert Confirmed(digests, seen[b].0, i + 1);
        found := AddKey(found, seen[b].0);
        if |found| >= 64 && found[63] < i - 1000 {
          Sixty4th(digests, found, i);
          return found, Some(found[63]);
        }
      }
    }
  }

  /** When the list holds only keys and every index the digests before i
      confirm, and its 64th entry lies more than 1000 indices behind i,
      that entry is the 64th key. */
  lemma Sixty4th(digests: seq<string>, found: seq<int>, i: int)
    requires 0 <= i < |digests|
    requires Increasing(found) && Sound(digests, found, i + 1) && Complete(digests, found, i)
    requires |found| >= 64 && found[63] < i - 1000
    ensures IsKey(digests, found[63]) && |KeysBelow(digests, found[63])| == 63
  {
    var v := found[63];
    assert Confirmed(digests, v, i + 1);
    var below := KeysBelow(digests, v);
    forall x | x in below ensures x in found && x < v {
      EarlyKeyConfirmed(digests, x, i);
    }
    forall x | x in found && x < v ensures x in below {
      assert Confirmed(digests, x, i + 1);
    }
    PrefixBelow(found, below);
  }

  /** A key more than 1000 indices behind i is confirmed before i. */
  lemma EarlyKeyConfirmed(digests: seq<string>, j: int, i: int)
    requires IsKey(digests, j) && j < i - 1000
    ensures Confirmed(digests, j, i)
  {
  }

  /** The entries of an ascending list below its 64th entry are its first
      63 entries. */
  lemma PrefixBelow(s: seq<int>, below: seq<int>)
    requires Increasing(s) && Increasing(below) && |s| >= 64
    requires forall x :: x in below ==> x in s && x < s[63]
    requires forall x :: x in s && x < s[63] ==> x in below
    ensures below == s[..63]
  {
    forall x ensures x in below <==> x in s[..63] {
      if x in below {
        var k :| 0 <= k < |s| && s[k] == x;
        assert k < 63 && s[..63][k] == x;
      }
      if x in s[..63] {
        var k :| 0 <= k < 63 && s[..63][k] == x;
        assert s[k] < s[63];
      }
    }
    IncreasingSame(below, s[..63]);
  }

  /** After every quintuple, each index the digests up to i confirm is
      found. */
  lemma ScanComplete(digests: seq<string>, seen: seq<(int, char)>, quintuples: seq<char>, i: int, found: seq<int>)
    requires 0 <= i < |digests| && Window(digests, seen, i - 1000, i)
    requires quintuples == Quintuples(digests[i])
    requires Increasing(found) && Sound(digests, found, i + 1) && Complete(digests, found, i)
    requires forall k, a :: 0 <= a < |quintuples| && 0 <= k < |seen| && seen[k].1 == quintuples[a] ==> seen[k].0 in found
    ensures KeysFound(digests, found, i + 1)
  {
    forall j | Confirmed(digests, j, i + 1) ensures j in found {
      if !Confirmed(digests, j, i) {
        var m :| j < m <= j + 1000 && m < i + 1 && m < |digests| && Triple(digests[j]).value in Quintuples(digests[m]);
        assert m == i;
        var c := Triple(digests[j]).value;
        assert (j, c) in seen;
        var k :| 0 <= k < |seen| && seen[k] == (j, c);
        var a :| 0 <= a < |quintuples| && quintuples[a] == c;
      }
    }
  }

  lemma HeadIn(s: seq<int>)
    ensures s != [] ==> s[0] in s
  {
  }

  /** Two ascending sequences with the same elements are equal. */
  lemma {:induction false} IncreasingSame(a: seq<int>, b: seq<int>)
    requires Increasing(a) && Increasing(b)
    requires forall x :: x in a <==> x in b
    ensures a == b
    decreases |a|
  {
    if a == [] || b == [] {
      HeadIn(a);
      HeadIn(b);
    } else {
      assert a[0] in a && b[0] in b;
      assert a[0] == b[0] by {
        var i :| 0 <= i < |b| && b[i] == a[0];
        var j :| 0 <= j < |a| && a[j] == b[0];
        assert b[0] <= b[i] && a[0] <= a[j];
      }
      forall x ensures x in a[1..] <==> x in b[1..] {
        if x in a[1..] {
          var i :| 1 <= i < |a| && a[i] == x;
          assert x in b;
          var j :| 0 <= j < |b| && b[j] == x;
          assert j != 0;
          assert b[1..][j - 1] == x;
        }
        if x in b[1..] {
          var i :| 1 <= i < |b| && b[i] == x;
          assert x in a;
          var j :| 0 <= j < |a| && a[j] == x;
          assert j != 0;
          assert a[1..][j - 1] == x;
        }
      }
      IncreasingSame(a[1..], b[1..]);
    }
  }

  /** One digest with the triple `8` at index 0 and one with `88888` at
      index 1 make index 0 a key. */
  lemma ExampleKey()
    ensures IsKey(["a888b", "c88888"], 0)
  {
    var d := ["a888b", "c88888"];
    assert Count(d[0], 3) == 2 && Count(d[0], 4) == 3;
    assert TripleUpTo(d[0], 3) == None;
    assert TripleUpTo(d[0], 4) == Some('8');
    assert Count(d[0], 5) == 1;
    assert Triple(d[0]) == Some('8');
    assert RunEndsAt(d[1], 6, 5) && d[1][5] == '8';
    QuintuplesMeaning(d[1], '8');
    assert Triple(d[0]).value in Quintuples(d[1]);
  }
}
