/**
 * The seeded deterministic shuffle that gives every member of a workspace
 * the same archive order (backend/src/utils/deterministicShuffle.ts):
 * sort by id, derive a numeric seed from the workspace seed string, then run
 * a Fisher-Yates pass driven by the Mulberry32 generator.
 *
 * JavaScript numbers are doubles. The model uses exact integers and 32-bit
 * vectors. It agrees with the doubles while the input has at most 2^21
 * records: then the generator's growing `seed` stays below 2^53 and
 * `random() * (i + 1)` is computed without rounding, so its floor is the
 * integer quotient used here.
 */
module DeterministicShuffle {
  import opened Types
  import opened RandomSource
  import opened JsStrings

  const TwoTo32: int := 0x1_0000_0000
  /** The odd constant Mulberry32 adds to its state on every call. */
  const Increment: int := 0x6d2b79f5

  // ---------------------------------------------------------------------------
  // 32-bit integer conversions (ECMAScript ToInt32 / ToUint32)

  function ToInt32(x: int): (r: int)
    ensures -0x8000_0000 <= r < 0x8000_0000
  {
    var m := x % TwoTo32;
    if m >= 0x8000_0000 then m - TwoTo32 else m
  }

  function ToUint32(x: int): bv32 {
    (x % TwoTo32) as bv32
  }

  /** ToInt32 depends only on the value modulo 2^32. */
  lemma ToInt32Congruent(x: int, y: int)
    requires (x - y) % TwoTo32 == 0
    ensures ToInt32(x) == ToInt32(y)
  {
    var q := (x - y) / TwoTo32;
    assert x == y + q * TwoTo32;
    assert x % TwoTo32 == y % TwoTo32;
  }

  // ---------------------------------------------------------------------------
  // stringToSeed

  /** The per-code-unit recurrence `hash * 31 + charCode`, wrapped to signed 32 bits. */
  function SeedHash(units: seq<CodeUnit>): (h: int)
    ensures -0x8000_0000 <= h < 0x8000_0000
    decreases |units|
  {
    if units == [] then 0 else ToInt32(31 * SeedHash(units[..|units| - 1]) + units[|units| - 1])
  }

  function Abs(x: int): nat {
    if x < 0 then -x else x
  }

  /** The numeric seed of a seed string: `Math.abs` of its hash. */
  function NumericSeed(s: string): (n: nat)
    ensures n <= 0x8000_0000
  {
    Abs(SeedHash(Utf16(s)))
  }

  /** ToInt32 differs from its argument by a multiple of 2^32. */
  lemma ToInt32Wraps(x: int)
    ensures (ToInt32(x) - x) % TwoTo32 == 0
  {
    var q := x / TwoTo32;
    assert x == q * TwoTo32 + x % TwoTo32;
    if x % TwoTo32 >= 0x8000_0000 {
      assert ToInt32(x) - x == -(q + 1) * TwoTo32;
    } else {
      assert ToInt32(x) - x == -q * TwoTo32;
    }
  }

  /** `(hash << 5) - hash + char`, wrapped, is the recurrence `hash * 31 + char`, wrapped. */
  lemma ShiftStep(hash: int, code: int)
    ensures ToInt32(ToInt32(hash * 32) - hash + code) == ToInt32(31 * hash + code)
  {
    var shifted := ToInt32(hash * 32);
    ToInt32Wraps(hash * 32);
    assert (shifted - hash + code) - (31 * hash + code) == shifted - hash * 32;
    ToInt32Congruent(shifted - hash + code, 31 * hash + code);
  }

  /** One more code unit extends the hash by one step of the recurrence. */
  lemma SeedHashSnoc(units: seq<CodeUnit>, i: nat)
    requires i < |units|
    ensures SeedHash(units[..i + 1]) == ToInt32(31 * SeedHash(units[..i]) + units[i])
  {
    assert units[..i + 1][..i] == units[..i];
  }

  /**
   * `stringToSeed`: the loop `hash = (hash << 5) - hash + char; hash = hash & hash`
   * over `str.charCodeAt(i)` for each of the `str.length` code units.
   */
  method StringToSeed(str: string) returns (seed: nat)
    ensures seed == NumericSeed(str)
    ensures seed <= 0x8000_0000
  {
    var units := Utf16(str);
    var hash := 0;
    for i := 0 to |units|
      invariant hash == SeedHash(units[..i])
    {
      var code := units[i];
      ShiftStep(hash, code);
      SeedHashSnoc(units, i);
      hash := ToInt32(hash * 32) - hash + code;
      hash := ToInt32(hash);
    }
    assert units[..|units|] == units;
    seed := Abs(hash);
  }

  // ---------------------------------------------------------------------------
  // mulberry32

  /** The mixing step applied to the advanced state, on 32-bit words. */
  function Mix(s: bv32): bv32 {
    var t1 := (s ^ (s >> 15)) * (s | 1);
    var t2 := t1 ^ (t1 + (t1 ^ (t1 >> 7)) * (t1 | 61));
    t2 ^ (t2 >> 14)
  }

  /**
   * The generator returned by `mulberry32(seed)`: the closure's captured
   * `seed` is the field. A call yields the numerator `u` of the returned
   * number `u / 2^32` in [0, 1).
   */
  class Mulberry32 {
    var seed: int

    constructor (seed: int)
      ensures this.seed == seed
    {
      this.seed := seed;
    }

    method Next() returns (u: bv32)
      modifies this
      ensures seed == old(seed) + Increment
      ensures u == Mix(ToUint32(seed))
    {
      seed := seed + Increment;
      u := Mix(ToUint32(seed));
    }
  }

  /** `Math.floor(u / 2^32 * (i + 1))`, exact while (i + 1) <= 2^21. */
  function DrawIndex(u: bv32, i: nat): (j: nat)
    ensures j <= i
  {
    ScaleBound(u as int, i);
    u as int * (i + 1) / TwoTo32
  }

  lemma ScaleBound(n: int, i: nat)
    requires 0 <= n < TwoTo32
    ensures n * (i + 1) / TwoTo32 <= i
  {
    assert n * (i + 1) < TwoTo32 * (i + 1) by {
      assert (TwoTo32 - n) * (i + 1) > 0;
    }
  }

  // ---------------------------------------------------------------------------
  // Sorting by id: `localeCompare` is replaced by lexicographic order on characters (code points).

  predicate IdLess(a: string, b: string)
    decreases |a|
  {
    if a == [] then b != []
    else if b == [] then false
    else if a[0] != b[0] then a[0] < b[0]
    else IdLess(a[1..], b[1..])
  }

  predicate IdLe(a: string, b: string) {
    !IdLess(b, a)
  }

  lemma {:induction false} IdLessIrreflexive(a: string)
    ensures !IdLess(a, a)
    decreases |a|
  {
    if a != [] {
      IdLessIrreflexive(a[1..]);
    }
  }

  lemma {:induction false} IdLessTrichotomy(a: string, b: string)
    ensures a == b || IdLess(a, b) || IdLess(b, a)
    ensures !(IdLess(a, b) && IdLess(b, a))
    decreases |a|
  {
    if a != [] && b != [] && a[0] == b[0] {
      IdLessTrichotomy(a[1..], b[1..]);
      if a[1..] == b[1..] {
        assert a == [a[0]] + a[1..] && b == [b[0]] + b[1..];
      }
    }
  }

  lemma {:induction false} IdLessTransitive(a: string, b: string, c: string)
    requires IdLess(a, b) && IdLess(b, c)
    ensures IdLess(a, c)
    decreases |a|
  {
    if a != [] && b != [] && c != [] && a[0] == b[0] && b[0] == c[0] {
      IdLessTransitive(a[1..], b[1..], c[1..]);
    }
  }

  /** `IdLess` is a strict total order, as a `localeCompare` comparator must be. */
  lemma IdLeTotalOrder(a: string, b: string, c: string)
    ensures IdLe(a, a)
    ensures IdLe(a, b) || IdLe(b, a)
    ensures IdLe(a, b) && IdLe(b, a) ==> a == b
    ensures IdLe(a, b) && IdLe(b, c) ==> IdLe(a, c)
  {
    IdLessIrreflexive(a);
    IdLessTrichotomy(a, b);
    IdLessTrichotomy(b, c);
    IdLessTrichotomy(a, c);
    if IdLess(c, a) && IdLe(a, b) && IdLe(b, c) {
      if IdLess(a, b) {
        IdLessTransitive(c, a, b);
      } else {
        assert a == b;
      }
    }
  }

  predicate SortedById(s: seq<Fundraise>) {
    forall i, j :: 0 <= i < j < |s| ==> IdLe(s[i].id, s[j].id)
  }

  /** No two different records share an id. */
  predicate IdsDetermineRecords(s: seq<Fundraise>) {
    forall x, y :: x in s && y in s && x.id == y.id ==> x == y
  }

  /** Inserts `x` before the first element whose id is not below its own (stable). */
  function Insert(x: Fundraise, s: seq<Fundraise>): (r: seq<Fundraise>)
    ensures multiset(r) == multiset(s) + multiset{x}
    ensures |r| == |s| + 1
    decreases |s|
  {
    if s == [] || !IdLess(s[0].id, x.id) then [x] + s
    else
      assert s == [s[0]] + s[1..];
      [s[0]] + Insert(x, s[1..])
  }

  /** `[...items].sort((a, b) => a.id.localeCompare(b.id))`: a stable insertion sort. */
  function SortById(s: seq<Fundraise>): (r: seq<Fundraise>)
    ensures multiset(r) == multiset(s)
    ensures |r| == |s|
    decreases |s|
  {
    if s == [] then []
    else
      assert s == [s[0]] + s[1..];
      Insert(s[0], SortById(s[1..]))
  }

  /** A record no greater than every element, put in front of a sorted sequence, keeps it sorted. */
  lemma ConsSorted(y: Fundraise, t: seq<Fundraise>)
    requires SortedById(t)
    requires forall j :: 0 <= j < |t| ==> IdLe(y.id, t[j].id)
    ensures SortedById([y] + t)
  {
    var r := [y] + t;
    forall i, j | 0 <= i < j < |r| ensures IdLe(r[i].id, r[j].id) {
      if i == 0 {
        assert r[j] == t[j - 1];
      } else {
        assert r[i] == t[i - 1] && r[j] == t[j - 1];
      }
    }
  }

  /** The head of a sorted sequence is no greater than any of its elements. */
  lemma HeadIsLeast(s: seq<Fundraise>, x: Fundraise)
    requires s != [] && SortedById(s) && x in s
    ensures IdLe(s[0].id, x.id)
  {
    var k :| 0 <= k < |s| && s[k] == x;
    if k == 0 {
      IdLessIrreflexive(x.id);
    }
  }

  lemma {:induction false} InsertSorted(x: Fundraise, s: seq<Fundraise>)
    requires SortedById(s)
    ensures SortedById(Insert(x, s))
    decreases |s|
  {
    if s == [] || !IdLess(s[0].id, x.id) {
      forall j | 0 <= j < |s| ensures IdLe(x.id, s[j].id) {
        HeadIsLeast(s, s[j]);
        IdLeTotalOrder(x.id, s[0].id, s[j].id);
      }
      ConsSorted(x, s);
    } else {
      assert s == [s[0]] + s[1..];
      InsertSorted(x, s[1..]);
      var t := Insert(x, s[1..]);
      forall j | 0 <= j < |t| ensures IdLe(s[0].id, t[j].id) {
        assert t[j] in multiset(t);
        if t[j] == x {
          IdLessTrichotomy(s[0].id, x.id);
        } else {
          HeadIsLeast(s, t[j]);
        }
      }
      ConsSorted(s[0], t);
    }
  }

  lemma {:induction false} SortByIdSorted(s: seq<Fundraise>)
    ensures SortedById(SortById(s))
    decreases |s|
  {
    if s != [] {
      SortByIdSorted(s[1..]);
      InsertSorted(s[0], SortById(s[1..]));
    }
  }

  /** Two id-sorted sequences with the same elements start alike, when ids determine records. */
  lemma SortedSameHead(s: seq<Fundraise>, t: seq<Fundraise>)
    requires s != [] && SortedById(s) && SortedById(t)
    requires multiset(s) == multiset(t)
    requires IdsDetermineRecords(s)
    ensures t != [] && s[0] == t[0]
  {
    assert s[0] in multiset(t);
    var k :| 0 <= k < |t| && t[k] == s[0];
    assert t[0] in multiset(s);
    var m :| 0 <= m < |s| && s[m] == t[0];
    assert IdLe(t[0].id, s[0].id) by {
      if k != 0 { assert IdLe(t[0].id, t[k].id); }
      else { IdLessIrreflexive(s[0].id); }
    }
    assert IdLe(s[0].id, t[0].id) by {
      if m != 0 { assert IdLe(s[0].id, s[m].id); }
      else { IdLessIrreflexive(s[0].id); }
    }
    IdLessTrichotomy(s[0].id, t[0].id);
    assert t[0] in s;
  }

  lemma DropHead(s: seq<Fundraise>)
    requires s != [] && SortedById(s)
    ensures SortedById(s[1..])
    ensures multiset(s[1..]) == multiset(s) - multiset{s[0]}
  {
    assert s == [s[0]] + s[1..];
  }

  /** Two id-sorted sequences with the same elements are equal, when ids determine records. */
  lemma {:induction false} SortedUnique(s: seq<Fundraise>, t: seq<Fundraise>)
    requires SortedById(s) && SortedById(t)
    requires multiset(s) == multiset(t)
    requires IdsDetermineRecords(s)
    ensures s == t
    decreases |s|
  {
    if s == [] {
      assert |t| == |multiset(t)| == 0;
    } else {
      SortedSameHead(s, t);
      DropHead(s);
      DropHead(t);
      assert IdsDetermineRecords(s[1..]) by {
        assert forall x :: x in s[1..] ==> x in s;
      }
      SortedUnique(s[1..], t[1..]);
    }
  }

  /** The id sort canonicalises: inputs with the same elements sort alike. */
  lemma SortByIdCanonical(a: seq<Fundraise>, b: seq<Fundraise>)
    requires multiset(a) == multiset(b)
    requires IdsDetermineRecords(a)
    ensures SortById(a) == SortById(b)
  {
    SortByIdSorted(a);
    SortByIdSorted(b);
    var sa := SortById(a);
    forall x, y | x in sa && y in sa && x.id == y.id ensures x == y {
      assert x in multiset(a) && y in multiset(a);
    }
    SortedUnique(sa, SortById(b));
  }

  // ---------------------------------------------------------------------------
  // The Fisher-Yates pass

  function Swap<T>(s: seq<T>, i: nat, j: nat): (r: seq<T>)
    requires i < |s| && j < |s|
    ensures |r| == |s|
    ensures multiset(r) == multiset(s)
  {
    s[i := s[j]][j := s[i]]
  }

  /** The slot drawn at iteration `i` when the generator is in state `state`. */
  function Drawn(i: nat, state: int): (j: nat)
    ensures j <= i
  {
    DrawIndex(Mix(ToUint32(state + Increment)), i)
  }

  /**
   * The loop `for (i = n - 1; i > 0; i--)` from index `i` on, with the
   * generator in state `state`: draw, then swap `i` with the drawn index.
   */
  function FisherYates<T>(s: seq<T>, i: int, state: int): (r: seq<T>)
    requires i < |s|
    ensures multiset(r) == multiset(s)
    decreases i
  {
    if i <= 0 then s
    else
      var next := state + Increment;
      FisherYates(Swap(s, i, Drawn(i, state)), i - 1, next)
  }

  /** One iteration of the loop. */
  lemma FisherYatesStep<T>(s: seq<T>, i: int, state: int)
    requires 0 < i < |s|
    ensures FisherYates(s, i, state)
         == FisherYates(Swap(s, i, Drawn(i, state)), i - 1, state + Increment)
  {
  }

  /** The whole of `deterministicShuffle(items, seed)` as a function. */
  function Shuffled(items: seq<Fundraise>, seed: string): seq<Fundraise> {
    FisherYates(SortById(items), |items| - 1, NumericSeed(seed))
  }

  /** The result is a permutation of the input. */
  lemma ShuffledPermutes(items: seq<Fundraise>, seed: string)
    ensures |Shuffled(items, seed)| == |items|
    ensures multiset(Shuffled(items, seed)) == multiset(items)
  {
    assert |multiset(Shuffled(items, seed))| == |Shuffled(items, seed)|;
  }

  /** The order the items arrive in does not matter: only their multiset and the seed do. */
  lemma ShuffledOrderIndependent(a: seq<Fundraise>, b: seq<Fundraise>, seed: string)
    requires multiset(a) == multiset(b)
    requires IdsDetermineRecords(a)
    ensures Shuffled(a, seed) == Shuffled(b, seed)
  {
    SortByIdCanonical(a, b);
    assert |a| == |multiset(a)| == |b|;
    SameRun(SortById(a), SortById(b), |a| - 1, |b| - 1, NumericSeed(seed), NumericSeed(seed));
  }

  /** With at most one item no swap happens: the result is the id-sorted copy. */
  lemma ShuffledShortInput(items: seq<Fundraise>, seed: string)
    requires |items| <= 1
    ensures Shuffled(items, seed) == SortById(items)
    ensures Shuffled(items, seed) == items
  {
    if |items| == 1 {
      assert items == [items[0]] + items[1..];
    }
  }

  /**
   * One pass of the loop body: draw from the generator, then swap `a[i]`
   * with the drawn slot. The pass still to run from `i - 1` on reaches the
   * same outcome `expected` as the pass from `i` before the step.
   */
  method SwapStep(a: array<Fundraise>, random: Mulberry32, i: int, ghost expected: seq<Fundraise>)
    requires 0 < i < a.Length
    requires FisherYates(a[..], i, random.seed) == expected
    modifies a, random
    ensures FisherYates(a[..], i - 1, random.seed) == expected
  {
    ghost var before := a[..];
    ghost var state := random.seed;
    var u := random.Next();
    var j := DrawIndex(u, i);
    a[i], a[j] := a[j], a[i];
    assert a[..] == Swap(before, i, j);
    FisherYatesStep(before, i, state);
  }

  /** Restates a pass from `i - 1` under the name of the decremented counter. */
  lemma Reindex(s: seq<Fundraise>, i: int, j: int, state: int, e: seq<Fundraise>)
    requires j == i - 1 && i - 1 < |s|
    requires FisherYates(s, i - 1, state) == e
    ensures FisherYates(s, j, state) == e
  {
  }

  /**
   * The loop `for (let i = n - 1; i > 0; i--)` over the array, from the
   * generator's current state; `expected` names the outcome the pass must reach.
   */
  method ShuffleInPlace(a: array<Fundraise>, random: Mulberry32, ghost expected: seq<Fundraise>)
    requires expected == FisherYates(a[..], a.Length - 1, random.seed)
    modifies a, random
    ensures a[..] == expected
  {
    var i := a.Length - 1;
    while i > 0
      invariant -1 <= i < a.Length
      invariant FisherYates(a[..], i, random.seed) == expected
      decreases i
    {
      SwapStep(a, random, i, expected);
      ghost var prev := i;
      i := i - 1;
      Reindex(a[..], prev, i, random.seed, expected);
    }
  }

  /** Equal arguments give equal passes. */
  lemma SameRun(s: seq<Fundraise>, t: seq<Fundraise>, i: int, j: int, x: int, y: int)
    requires s == t && i == j && x == y && i < |s|
    ensures FisherYates(s, i, x) == FisherYates(t, j, y)
  {
  }

  /** `[...items]` as a fresh array. */
  method ToArray(s: seq<Fundraise>) returns (a: array<Fundraise>)
    ensures fresh(a) && a[..] == s
  {
    a := new Fundraise[|s|](k requires 0 <= k < |s| => s[k]);
  }

  /** `deterministicShuffle`: sorts a copy by id, then shuffles it in place. */
  method DeterministicShuffle(items: seq<Fundraise>, seed: string) returns (result: seq<Fundraise>)
    ensures result == Shuffled(items, seed)
    ensures multiset(result) == multiset(items)
  {
    var sorted := SortById(items);
    var seed0 := StringToSeed(seed);
    var a := ToArray(sorted);
    var random := new Mulberry32(seed0);
    SameRun(a[..], SortById(items), a.Length - 1, |items| - 1, random.seed, NumericSeed(seed));
    ShuffleInPlace(a, random, Shuffled(items, seed));
    result := a[..];
    ShuffledPermutes(items, seed);
  }

  // ---------------------------------------------------------------------------
  // generateWorkspaceSeed

  const SeedAlphabet: string := "ABCDEFGHIJKLMNOPQRSTUVWXYZabcdefghijklmnopqrstuvwxyz0123456789"
  const SeedLength: nat := 32

  /** The seed a stream of draws produces, as a function of the draws. */
  function WorkspaceSeedOf(draws: seq<real>): (seed: string)
    requires |draws| >= SeedLength && IsRandomStream(draws)
    ensures |seed| == SeedLength
    ensures forall k :: 0 <= k < |seed| ==> seed[k] in SeedAlphabet
  {
    PrefixIsRandomStream(draws, SeedLength);
    RandomString(SeedAlphabet, draws[..SeedLength])
  }

  /** `generateWorkspaceSeed`, drawing from the given `Math.random` stream. */
  method GenerateWorkspaceSeed(draws: seq<real>) returns (seed: string)
    requires |draws| >= SeedLength && IsRandomStream(draws)
    ensures seed == WorkspaceSeedOf(draws)
  {
    seed := "";
    for i := 0 to SeedLength
      invariant seed == RandomString(SeedAlphabet, draws[..i])
    {
      RandomStringSnoc(SeedAlphabet, draws, i);
      seed := seed + [PickChar(SeedAlphabet, draws[i])];
    }
  }
}
