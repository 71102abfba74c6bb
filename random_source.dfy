/**
 * `Math.random()` as an explicit stream of draws, each a number in [0, 1),
 * and the `chars.charAt(Math.floor(Math.random() * chars.length))` idiom on it.
 */
module RandomSource {

  /** Every draw lies in [0, 1), as `Math.random` promises. */
  predicate IsRandomStream(draws: seq<real>) {
    forall k :: 0 <= k < |draws| ==> 0.0 <= draws[k] < 1.0
  }

  /** `Math.floor(r * n)` is a valid index below `n` for every draw `r`. */
  function PickIndex(r: real, n: nat): (k: nat)
    requires 0.0 <= r < 1.0 && n > 0
    ensures k < n
  {
    var x := r * n as real;
    assert (1.0 - r) * n as real > 0.0;
    assert 0.0 <= x < n as real;
    x.Floor
  }

  /** `alphabet.charAt(Math.floor(r * alphabet.length))`. */
  function PickChar(alphabet: string, r: real): (c: char)
    requires 0.0 <= r < 1.0 && |alphabet| > 0
    ensures c in alphabet
  {
    alphabet[PickIndex(r, |alphabet|)]
  }

  /** The string of `count` characters drawn one per element of `draws`. */
  function RandomString(alphabet: string, draws: seq<real>): (s: string)
    requires IsRandomStream(draws) && |alphabet| > 0
    ensures |s| == |draws|
    ensures forall k :: 0 <= k < |s| ==> s[k] in alphabet
  {
    seq(|draws|, k requires 0 <= k < |draws| => PickChar(alphabet, draws[k]))
  }

  /** One more draw appends one more character. */
  lemma RandomStringSnoc(alphabet: string, draws: seq<real>, i: nat)
    requires IsRandomStream(draws) && |alphabet| > 0 && i < |draws|
    ensures IsRandomStream(draws[..i]) && IsRandomStream(draws[..i + 1])
    ensures RandomString(alphabet, draws[..i + 1]) == RandomString(alphabet, draws[..i]) + [PickChar(alphabet, draws[i])]
  {
    assert forall k :: 0 <= k <= i ==> draws[..i + 1][k] == draws[k];
    assert forall k :: 0 <= k < i ==> draws[..i][k] == draws[k];
  }

  /** A prefix of a stream of draws is a stream of draws. */
  lemma PrefixIsRandomStream(draws: seq<real>, n: nat)
    requires IsRandomStream(draws) && n <= |draws|
    ensures IsRandomStream(draws[..n])
  {
    assert forall k :: 0 <= k < n ==> draws[..n][k] == draws[k];
  }
}
