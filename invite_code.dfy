/**
 * Workspace invite codes (backend/src/utils/inviteCode.ts): six characters
 * drawn from an alphabet without the look-alikes I, O, 0 and 1, and the
 * normalisation applied to a code a user types in before it is looked up.
 */
module InviteCode {
  import opened JsStrings
  import opened Seqs
  import opened RandomSource

  /** The 32-character alphabet: upper-case letters and digits, minus I, O, 0 and 1. */
  const Chars: string := "ABCDEFGHJKLMNPQRSTUVWXYZ23456789"
  const CodeLength: nat := 6

  /** `generateInviteCode`, drawing from the given `Math.random` stream. */
  method GenerateInviteCode(draws: seq<real>) returns (code: string)
    requires |draws| >= CodeLength && IsRandomStream(draws)
    ensures |code| == CodeLength
    ensures forall k :: 0 <= k < |code| ==> code[k] in Chars
    ensures code == InviteCodeOf(draws)
  {
    code := "";
    for i := 0 to CodeLength
      invariant code == RandomString(Chars, draws[..i])
    {
      RandomStringSnoc(Chars, draws, i);
      code := code + [PickChar(Chars, draws[i])];
    }
  }

  /** The code a stream of draws produces, as a function of the draws. */
  function InviteCodeOf(draws: seq<real>): (code: string)
    requires |draws| >= CodeLength && IsRandomStream(draws)
    ensures |code| == CodeLength
    ensures forall k :: 0 <= k < |code| ==> code[k] in Chars
  {
    PrefixIsRandomStream(draws, CodeLength);
    RandomString(Chars, draws[..CodeLength])
  }

  predicate IsNotWhitespace(c: char) {
    !IsWhitespace(c)
  }

  /** `code.toUpperCase().replace(/\s/g, '')`. */
  function NormalizeInviteCode(code: string): (r: string)
    ensures forall c :: c in r ==> !IsWhitespace(c) && !IsAsciiLower(c)
    ensures |r| <= |code|
  {
    Filter(ToUpper(code), IsNotWhitespace)
  }

  /** A string without whitespace or lower-case letters is already normal. */
  lemma NormalizeFixedPoint(code: string)
    requires forall c :: c in code ==> !IsWhitespace(c) && !IsAsciiLower(c)
    ensures NormalizeInviteCode(code) == code
  {
    assert ToUpper(code) == code;
    FilterKeepsAll(code, IsNotWhitespace);
  }

  /** Normalising twice is normalising once. */
  lemma NormalizeIdempotent(code: string)
    ensures NormalizeInviteCode(NormalizeInviteCode(code)) == NormalizeInviteCode(code)
  {
    NormalizeFixedPoint(NormalizeInviteCode(code));
  }

  /** The alphabet holds only upper-case letters and digits. */
  lemma CharsUpperOrDigit()
    ensures forall c :: c in Chars ==> 'A' <= c <= 'Z' || '2' <= c <= '9'
  {
  }

  /** Every generated code is its own normal form, so a user typing it back finds it. */
  lemma GeneratedCodeIsNormal(draws: seq<real>)
    requires |draws| >= CodeLength && IsRandomStream(draws)
    ensures NormalizeInviteCode(InviteCodeOf(draws)) == InviteCodeOf(draws)
  {
    var code := InviteCodeOf(draws);
    CharsUpperOrDigit();
    forall c | c in code ensures !IsWhitespace(c) && !IsAsciiLower(c) {
      assert c in Chars;
      assert 'A' <= c <= 'Z' || '2' <= c <= '9';
    }
    NormalizeFixedPoint(code);
  }

  /** The case a code is typed in does not matter. */
  lemma NormalizeIgnoresCase(code: string)
    ensures NormalizeInviteCode(ToLower(code)) == NormalizeInviteCode(code)
  {
    var typed := ToUpper(ToLower(code));
    forall i | 0 <= i < |code| ensures typed[i] == ToUpper(code)[i] {
      assert UpperChar(LowerChar(code[i])) == UpperChar(code[i]);
    }
    assert typed == ToUpper(code);
  }
}
