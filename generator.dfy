/**
 * The password generator: build the alphabet for the current flags, then
 * append `length` characters, each picked at an index the random source
 * supplies.
 *
 * The random source is injected as the sequence of indices it produced, one
 * per loop iteration, so that a run is a function of its configuration and
 * that trace.  Every index is below the alphabet's size, which is what
 * flooring a random fraction in [0, 1) times the size guarantees.
 */
module Generator {
  import opened Charset

  /** Every drawn index is a valid position in `alphabet`. */
  predicate DrawsFit(alphabet: string, draws: seq<nat>) {
    forall i :: 0 <= i < |draws| ==> draws[i] < |alphabet|
  }

  /**
   * The password that appending one picked character per draw produces.
   * Its meaning: one character per draw, and the character at position `i`
   * is the alphabet's character at the `i`-th drawn index.
   */
  function Pick(alphabet: string, draws: seq<nat>): (pass: string)
    requires DrawsFit(alphabet, draws)
    ensures |pass| == |draws|
    ensures forall i :: 0 <= i < |draws| ==> pass[i] == alphabet[draws[i]]
  {
    if draws == [] then ""
    else Pick(alphabet, draws[..|draws| - 1]) + [alphabet[draws[|draws| - 1]]]
  }

  /**
   * One run of the generator's body: grow the alphabet by the flags, then
   * append one character per iteration for `length` iterations.
   */
  method BuildPassword(length: nat, numberAllowed: bool, charAllowed: bool, draws: seq<nat>)
      returns (pass: string)
    requires |draws| == length
    requires DrawsFit(Alphabet(numberAllowed, charAllowed), draws)
    ensures pass == Pick(Alphabet(numberAllowed, charAllowed), draws)
    ensures |pass| == length
    ensures forall k :: 0 <= k < |pass| ==> pass[k] in Alphabet(numberAllowed, charAllowed)
  {
    pass := "";
    var str := Letters;
    if numberAllowed {
      str := str + Digits;
    }
    if charAllowed {
      str := str + Symbols;
    }
    assert str == Alphabet(numberAllowed, charAllowed);
    for i := 1 to length + 1
      invariant pass == Pick(str, draws[..i - 1])
    {
      var index := draws[i - 1];
      assert draws[..i][..i - 1] == draws[..i - 1];
      pass := pass + [str[index]];
    }
    assert draws[..length] == draws;
  }

  // ---------------------------------------------------------------------------
  // What a generated password is made of

  /**
   * Every character of a generated password is a letter, a digit only when
   * numbers are allowed, or a special character only when those are
   * allowed.
   */
  lemma PasswordCharacters(numberAllowed: bool, charAllowed: bool, draws: seq<nat>)
    requires DrawsFit(Alphabet(numberAllowed, charAllowed), draws)
    ensures forall k :: 0 <= k < |draws| ==>
      var ch := Pick(Alphabet(numberAllowed, charAllowed), draws)[k];
      IsLetter(ch) || (numberAllowed && IsDigit(ch)) || (charAllowed && IsSymbol(ch))
  {
    var pass := Pick(Alphabet(numberAllowed, charAllowed), draws);
    forall k | 0 <= k < |draws|
      ensures IsLetter(pass[k]) || (numberAllowed && IsDigit(pass[k])) || (charAllowed && IsSymbol(pass[k]))
    {
      AlphabetMembership(numberAllowed, charAllowed, pass[k]);
    }
  }

  /** With both flags off (the defaults) a password is letters only. */
  lemma DefaultPasswordIsLetters(draws: seq<nat>)
    requires DrawsFit(Alphabet(false, false), draws)
    ensures forall k :: 0 <= k < |draws| ==> IsLetter(Pick(Alphabet(false, false), draws)[k])
  {
    PasswordCharacters(false, false, draws);
  }

  /** Every drawn index is valid for any configuration as long as it is below 52. */
  lemma LetterIndicesAlwaysFit(numberAllowed: bool, charAllowed: bool, draws: seq<nat>)
    requires forall i :: 0 <= i < |draws| ==> draws[i] < |Letters|
    ensures DrawsFit(Alphabet(numberAllowed, charAllowed), draws)
    ensures Pick(Alphabet(numberAllowed, charAllowed), draws) == Pick(Letters, draws)
  {
    var str := Alphabet(numberAllowed, charAllowed);
    assert DrawsFit(str, draws);
    assert DrawsFit(Letters, draws);
    var a, b := Pick(str, draws), Pick(Letters, draws);
    forall i | 0 <= i < |draws| ensures a[i] == b[i] {
      assert str[..|Letters|][draws[i]] == Letters[draws[i]];
    }
  }
}
