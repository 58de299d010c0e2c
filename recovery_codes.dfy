/**
 * Recovery-code generation (`generateRecoveryCodes` in src/lib/twoFactorAuth.js).
 *
 * `Math.random` is a parameter `random`: `random(n)` is the value the n-th call returns, a real
 * in [0, 1). The otplib and QR-code wrappers of the same file are foreign calls and stay outside.
 */
module RecoveryCodes {
  import opened Common

  const Characters: string := "ABCDEFGHIJKLMNOPQRSTUVWXYZ0123456789"
  const DefaultCount: int := 10
  /** Random characters per code, split into two blocks of five by a hyphen. */
  const BlockLength: nat := 5
  const RawLength: nat := 10
  const CodeLength: nat := 11

  /** What `Math.random` promises about each value it returns. */
  ghost predicate IsRandomSource(random: nat -> real) {
    forall n: nat :: 0.0 <= random(n) < 1.0
  }

  /** `Math.floor(Math.random() * characters.length)` for one draw. */
  function DrawIndex(d: real): (k: nat)
    requires 0.0 <= d < 1.0
    ensures k < |Characters|
    ensures k as real <= d * |Characters| as real < k as real + 1.0
  {
    (d * |Characters| as real).Floor
  }

  /** A code in the `XXXXX-XXXXX` format over the alphabet A-Z0-9. */
  predicate WellFormed(code: string) {
    && |code| == CodeLength
    && code[BlockLength] == '-'
    && forall i :: 0 <= i < |code| && i != BlockLength ==> code[i] in Characters
  }

  /** The first `n` characters drawn from calls `from`, `from + 1`, ... of `Math.random`. */
  function RawChars(random: nat -> real, from: nat, n: nat): string
    requires IsRandomSource(random)
  {
    if n == 0 then "" else RawChars(random, from, n - 1) + [Characters[DrawIndex(random(from + n - 1))]]
  }

  lemma {:induction false} RawCharsInAlphabet(random: nat -> real, from: nat, n: nat)
    requires IsRandomSource(random)
    ensures |RawChars(random, from, n)| == n
    ensures forall i :: 0 <= i < n ==> RawChars(random, from, n)[i] in Characters
  {
    if n > 0 {
      RawCharsInAlphabet(random, from, n - 1);
      var k := DrawIndex(random(from + n - 1));
      assert Characters[k] in Characters;
    }
  }

  /** `${code.slice(0, 5)}-${code.slice(5)}`. */
  function Hyphenate(raw: string): string
    requires |raw| == RawLength
  {
    raw[..BlockLength] + "-" + raw[BlockLength..]
  }

  /** The i-th code: made of the draws 10 * i .. 10 * i + 9. */
  function CodeAt(random: nat -> real, i: nat): string
    requires IsRandomSource(random)
  {
    RawCharsInAlphabet(random, RawLength * i, RawLength);
    Hyphenate(RawChars(random, RawLength * i, RawLength))
  }

  /** Every code the generator can produce is in the `XXXXX-XXXXX` format. */
  lemma {:induction false} CodeAtWellFormed(random: nat -> real, i: nat)
    requires IsRandomSource(random)
    ensures WellFormed(CodeAt(random, i))
  {
    var raw := RawChars(random, RawLength * i, RawLength);
    RawCharsInAlphabet(random, RawLength * i, RawLength);
    var code := Hyphenate(raw);
    forall k | 0 <= k < |code| && k != BlockLength ensures code[k] in Characters {
      if k < BlockLength { assert code[k] == raw[k]; } else { assert code[k] == raw[k - 1]; }
    }
  }

  /** How many codes a call produces: `count` defaults to 10, and a negative count runs no iteration. */
  function RequestedCount(count: Option<int>): (n: nat)
    ensures count.None? ==> n == 10
    ensures count.Some? ==> n == if count.value < 0 then 0 else count.value
  {
    match count
    case None => DefaultCount
    case Some(c) => if c < 0 then 0 else c
  }

  /** `generateRecoveryCodes(count)`: two nested loops that draw ten characters per code. */
  method GenerateRecoveryCodes(count: Option<int>, random: nat -> real) returns (codes: seq<string>)
    requires IsRandomSource(random)
    ensures |codes| == RequestedCount(count)
    ensures forall i :: 0 <= i < |codes| ==> codes[i] == CodeAt(random, i)
    ensures forall i :: 0 <= i < |codes| ==> WellFormed(codes[i])
  {
    var n := RequestedCount(count);
    codes := [];
    var i := 0;
    while i < n
      invariant 0 <= i <= n
      invariant |codes| == i
      invariant forall k :: 0 <= k < i ==> codes[k] == CodeAt(random, k)
    {
      var code := "";
      var j := 0;
      while j < RawLength
        invariant 0 <= j <= RawLength
        invariant code == RawChars(random, RawLength * i, j)
      {
        code := code + [Characters[DrawIndex(random(RawLength * i + j))]];
        j := j + 1;
      }
      RawCharsInAlphabet(random, RawLength * i, RawLength);
      assert Hyphenate(code) == CodeAt(random, i);
      codes := codes + [Hyphenate(code)];
      i := i + 1;
    }
    forall k | 0 <= k < |codes| ensures WellFormed(codes[k]) {
      CodeAtWellFormed(random, k);
    }
  }
}
