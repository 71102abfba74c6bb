/**
 * The JavaScript string operations the core relies on: `trim`, `\s`,
 * `toLowerCase` / `toUpperCase` (on ASCII letters), `includes` and
 * `split` on a one-character separator. A Dafny `char` is a Unicode scalar
 * value, and a string a sequence of them; where the source counts or indexes
 * UTF-16 code units (`length`, `charCodeAt`, `slice`, `split('')`), `Utf16`
 * gives the JavaScript string's code units. The other operations test only
 * characters below 0x10000, which are one code unit each, so they agree on
 * either view.
 */
module JsStrings {

  /** ECMAScript WhiteSpace and LineTerminator: what `\s` matches and `trim` removes. */
  predicate IsWhitespace(c: char) {
    var n := c as int;
    n == 0x09 || n == 0x0A || n == 0x0B || n == 0x0C || n == 0x0D || n == 0x20 ||
    n == 0xA0 || n == 0x1680 || (0x2000 <= n <= 0x200A) || n == 0x2028 || n == 0x2029 ||
    n == 0x202F || n == 0x205F || n == 0x3000 || n == 0xFEFF
  }

  /** Number of occurrences of `c` in `s`. */
  function CountOf(s: string, c: char): nat
    decreases |s|
  {
    if s == [] then 0
    else CountOf(s[..|s| - 1], c) + (if s[|s| - 1] == c then 1 else 0)
  }

  lemma {:induction false} CountOfConcat(a: string, b: string, c: char)
    ensures CountOf(a + b, c) == CountOf(a, c) + CountOf(b, c)
    decreases |b|
  {
    if b == [] {
      assert a + b == a;
    } else {
      assert (a + b)[..|a + b| - 1] == a + b[..|b| - 1];
      assert (a + b)[|a + b| - 1] == b[|b| - 1];
      CountOfConcat(a, b[..|b| - 1], c);
    }
  }

  /** Appending one character adds one occurrence exactly when it is that character. */
  lemma CountOfSnoc(s: string, x: char, c: char)
    ensures CountOf(s + [x], c) == CountOf(s, c) + (if x == c then 1 else 0)
  {
    assert (s + [x])[..|s|] == s;
  }

  lemma {:induction false} CountOfPositive(s: string, c: char)
    ensures c in s <==> CountOf(s, c) > 0
    decreases |s|
  {
    if s != [] {
      CountOfPositive(s[..|s| - 1], c);
      assert s == s[..|s| - 1] + [s[|s| - 1]];
    }
  }

  lemma {:induction false} CountOfAbsent(s: string, c: char)
    requires c !in s
    ensures CountOf(s, c) == 0
    decreases |s|
  {
    if s != [] {
      CountOfAbsent(s[..|s| - 1], c);
    }
  }

  /** `s.trimStart()`: drops leading whitespace. */
  function TrimStart(s: string): (r: string)
    ensures |r| <= |s| && r == s[|s| - |r|..]
    ensures forall i :: 0 <= i < |s| - |r| ==> IsWhitespace(s[i])
    ensures r == [] || !IsWhitespace(r[0])
    decreases |s|
  {
    if s != [] && IsWhitespace(s[0]) then TrimStart(s[1..]) else s
  }

  /** `s.trimEnd()`: drops trailing whitespace. */
  function TrimEnd(s: string): (r: string)
    ensures |r| <= |s| && r == s[..|r|]
    ensures forall i :: |r| <= i < |s| ==> IsWhitespace(s[i])
    ensures r == [] || !IsWhitespace(r[|r| - 1])
    decreases |s|
  {
    if s != [] && IsWhitespace(s[|s| - 1]) then TrimEnd(s[..|s| - 1]) else s
  }

  /** Neither end is whitespace. */
  predicate IsTrimmed(s: string) {
    s == [] || (!IsWhitespace(s[0]) && !IsWhitespace(s[|s| - 1]))
  }

  /** `s.trim()`: a contiguous slice of `s` that drops only whitespace and is trimmed. */
  function Trim(s: string): (r: string)
    ensures IsTrimmed(r)
    ensures forall c :: c in r ==> c in s
  {
    TrimBothEnds(s);
    TrimEnd(TrimStart(s))
  }

  /** A prefix of a suffix keeps only characters of the whole. */
  lemma SliceChars(s: string, a: string, r: string)
    requires |a| <= |s| && a == s[|s| - |a|..]
    requires |r| <= |a| && r == a[..|r|]
    ensures forall c :: c in r ==> c in s
  {
    forall c | c in r ensures c in s {
      var k :| 0 <= k < |r| && r[k] == c;
      assert a[k] == c;
      assert s[|s| - |a| + k] == c;
    }
  }

  /** Trimming the start and then the end leaves neither end whitespace. */
  lemma TrimBothEnds(s: string)
    ensures IsTrimmed(TrimEnd(TrimStart(s)))
    ensures forall c :: c in TrimEnd(TrimStart(s)) ==> c in s
  {
    var a := TrimStart(s);
    var r := TrimEnd(a);
    SliceChars(s, a, r);
    if r != [] {
      assert r[0] == a[0];
    }
  }

  /** Dropping a whitespace-only prefix or suffix keeps the count of a non-whitespace character. */
  lemma CountDropWhitespace(w: string, r: string, c: char)
    requires !IsWhitespace(c)
    requires forall k :: 0 <= k < |w| ==> IsWhitespace(w[k])
    ensures CountOf(w + r, c) == CountOf(r, c) == CountOf(r + w, c)
  {
    CountOfConcat(w, r, c);
    CountOfConcat(r, w, c);
    CountOfAbsent(w, c);
  }

  /** `trimStart` keeps the count of a non-whitespace character. */
  lemma TrimStartKeeps(s: string, c: char)
    requires !IsWhitespace(c)
    ensures CountOf(TrimStart(s), c) == CountOf(s, c)
  {
    var a := TrimStart(s);
    var w := s[..|s| - |a|];
    assert s == w + a;
    assert forall k :: 0 <= k < |w| ==> w[k] == s[k];
    CountDropWhitespace(w, a, c);
  }

  /** `trimEnd` keeps the count of a non-whitespace character. */
  lemma TrimEndKeeps(s: string, c: char)
    requires !IsWhitespace(c)
    ensures CountOf(TrimEnd(s), c) == CountOf(s, c)
  {
    var r := TrimEnd(s);
    var w := s[|r|..];
    assert s == r + w;
    assert forall k :: 0 <= k < |w| ==> w[k] == s[|r| + k];
    CountDropWhitespace(w, r, c);
  }

  /** Trimming keeps every character that is not whitespace, and its count. */
  lemma TrimKeeps(s: string, c: char)
    requires !IsWhitespace(c)
    ensures CountOf(Trim(s), c) == CountOf(s, c)
    ensures c in Trim(s) <==> c in s
  {
    TrimStartKeeps(s, c);
    TrimEndKeeps(TrimStart(s), c);
    assert Trim(s) == TrimEnd(TrimStart(s));
    CountOfPositive(s, c);
    CountOfPositive(Trim(s), c);
  }

  /** A trimmed string is its own trim. */
  lemma TrimTrimmed(s: string)
    requires IsTrimmed(s)
    ensures Trim(s) == s
  {
  }

  predicate IsAsciiUpper(c: char) { 'A' <= c <= 'Z' }
  predicate IsAsciiLower(c: char) { 'a' <= c <= 'z' }

  function LowerChar(c: char): char {
    if IsAsciiUpper(c) then (c as int + 32) as char else c
  }

  function UpperChar(c: char): char {
    if IsAsciiLower(c) then (c as int - 32) as char else c
  }

  /** `s.toLowerCase()` on ASCII letters. */
  function ToLower(s: string): (r: string)
    ensures |r| == |s|
    ensures forall i :: 0 <= i < |s| ==> r[i] == LowerChar(s[i])
  {
    seq(|s|, i requires 0 <= i < |s| => LowerChar(s[i]))
  }

  /** `s.toUpperCase()` on ASCII letters. */
  function ToUpper(s: string): (r: string)
    ensures |r| == |s|
    ensures forall i :: 0 <= i < |s| ==> r[i] == UpperChar(s[i])
  {
    seq(|s|, i requires 0 <= i < |s| => UpperChar(s[i]))
  }

  /** Lower-casing forgets the case of the input: upper- and lower-case spellings agree. */
  lemma LowerOfCaseChange(s: string)
    ensures ToLower(ToLower(s)) == ToLower(s)
    ensures ToLower(ToUpper(s)) == ToLower(s)
  {
  }

  /** `s.includes(t)`. */
  predicate Contains(s: string, t: string) {
    exists i :: 0 <= i <= |s| - |t| && OccursAt(s, t, i)
  }

  /** `t` occurs in `s` starting at index `i`. */
  predicate OccursAt(s: string, t: string, i: int) {
    0 <= i <= |s| - |t| && s[i..i + |t|] == t
  }

  /** `s.split(sep)` for a one-character separator. */
  function SplitOn(s: string, sep: char): (r: seq<string>)
    ensures |r| == CountOf(s, sep) + 1
    ensures forall k :: 0 <= k < |r| ==> sep !in r[k]
    decreases |s|
  {
    if s == [] then [""]
    else
      var init := SplitOn(s[..|s| - 1], sep);
      var last := s[|s| - 1];
      if last == sep then init + [""]
      else init[..|init| - 1] + [init[|init| - 1] + [last]]
  }

  /** Total number of occurrences of `c` across a list of strings. */
  function CountIn(pieces: seq<string>, c: char): nat
    decreases |pieces|
  {
    if pieces == [] then 0 else CountOf(pieces[0], c) + CountIn(pieces[1..], c)
  }

  lemma {:induction false} CountInConcat(a: seq<string>, b: seq<string>, c: char)
    ensures CountIn(a + b, c) == CountIn(a, c) + CountIn(b, c)
    decreases |a|
  {
    if a == [] {
      assert a + b == b;
    } else {
      assert (a + b)[1..] == a[1..] + b;
      CountInConcat(a[1..], b, c);
    }
  }

  lemma CountInSnoc(pieces: seq<string>, piece: string, c: char)
    ensures CountIn(pieces + [piece], c) == CountIn(pieces, c) + CountOf(piece, c)
  {
    CountInConcat(pieces, [piece], c);
    assert [piece][1..] == [];
  }

  /** Splitting loses only the separators: every other character keeps its count. */
  lemma {:induction false} SplitOnKeepsCount(s: string, sep: char, c: char)
    requires c != sep
    ensures CountIn(SplitOn(s, sep), c) == CountOf(s, c)
    decreases |s|
  {
    if s != [] {
      var init := SplitOn(s[..|s| - 1], sep);
      var last := s[|s| - 1];
      SplitOnKeepsCount(s[..|s| - 1], sep, c);
      if last == sep {
        CountInConcat(init, [""], c);
      } else {
        var front := init[..|init| - 1];
        var tail := init[|init| - 1];
        assert init == front + [tail];
        CountInConcat(front, [tail], c);
        CountInConcat(front, [tail + [last]], c);
        CountOfConcat(tail, [last], c);
        assert CountOf([last], c) == (if last == c then 1 else 0) by {
          assert [last][..0] == [];
        }
      }
    }
  }

  // ---------------------------------------------------------------------------
  // UTF-16

  /** A UTF-16 code unit, what `charCodeAt` returns. */
  type CodeUnit = n: int | 0 <= n < 0x10000

  /** The UTF-16 encoding of one character: itself below 0x10000, otherwise a surrogate pair. */
  function Utf16Char(c: char): (u: seq<CodeUnit>)
    ensures |u| == (if c as int < 0x10000 then 1 else 2)
  {
    var n := c as int;
    if n < 0x10000 then [n]
    else [0xD800 + (n - 0x10000) / 0x400, 0xDC00 + (n - 0x10000) % 0x400]
  }

  /** The encoding decodes back to the character: a single unit is the code point, a pair a high and a low surrogate. */
  lemma Utf16CharDecodes(c: char)
    ensures var u := Utf16Char(c);
      if |u| == 1 then u[0] == c as int
      else
        && 0xD800 <= u[0] < 0xDC00 && 0xDC00 <= u[1] < 0xE000
        && (u[0] as int - 0xD800) * 0x400 + (u[1] as int - 0xDC00) + 0x10000 == c as int
  {
  }

  /** The code units of a JavaScript string: the characters' encodings in order. */
  function Utf16(s: string): (r: seq<CodeUnit>)
    ensures |r| >= |s|
    decreases |s|
  {
    if s == [] then [] else Utf16(s[..|s| - 1]) + Utf16Char(s[|s| - 1])
  }

  /** Encoding distributes over concatenation. */
  lemma {:induction false} Utf16Concat(a: string, b: string)
    ensures Utf16(a + b) == Utf16(a) + Utf16(b)
    decreases |b|
  {
    if b == [] {
      assert a + b == a;
    } else {
      var front := b[..|b| - 1];
      assert (a + b)[..|a + b| - 1] == a + front;
      assert (a + b)[|a + b| - 1] == b[|b| - 1];
      Utf16Concat(a, front);
      assert Utf16(a + b) == Utf16(a) + Utf16(front) + Utf16Char(b[|b| - 1]);
    }
  }

  /** A prefix of the string encodes to a prefix of its code units. */
  lemma Utf16Prefix(p: string, s: string)
    requires p <= s
    ensures Utf16(p) <= Utf16(s)
  {
    assert s == p + s[|p|..];
    Utf16Concat(p, s[|p|..]);
  }

  /** A string of characters below 0x10000 has one code unit per character, each its code point. */
  lemma {:induction false} Utf16Bmp(s: string)
    requires forall k :: 0 <= k < |s| ==> s[k] as int < 0x10000
    ensures |Utf16(s)| == |s|
    ensures forall k :: 0 <= k < |s| ==> Utf16(s)[k] == s[k] as int
    decreases |s|
  {
    if s != [] {
      Utf16Bmp(s[..|s| - 1]);
    }
  }
}
