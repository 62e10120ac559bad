/**
 * The character set the password generator draws from.
 *
 * The generator starts from a fixed string of 52 letters and appends the ten
 * decimal digits when numbers are allowed, then a fixed string of 18 symbols
 * when special characters are allowed.  This module keeps the three literal
 * strings exactly as the application spells them, gives independent
 * code-point definitions of "letter" and "digit", and proves that the
 * literals and the selection by the two flags agree with them.
 */
module Charset {

  /** Upper-case A to Z, then lower-case a to z: the base alphabet. */
  const Letters: string := "ABCDEFGHIJKLMNOPQRSTUVWXYZabcdefghijklmnopqrstuvwxyz"

  /** Appended when numbers are allowed. */
  const Digits: string := "0123456789"

  /** Appended when special characters are allowed. */
  const Symbols: string := "!@#$%^&*-_+=[]{}~`"

  /** ASCII letter, by code point. */
  predicate IsLetter(ch: char) {
    'A' <= ch <= 'Z' || 'a' <= ch <= 'z'
  }

  /** ASCII decimal digit, by code point. */
  predicate IsDigit(ch: char) {
    '0' <= ch <= '9'
  }

  /** One of the special characters the application offers. */
  predicate IsSymbol(ch: char) {
    ch in Symbols
  }

  /** No character occurs twice in `s`. */
  predicate NoDuplicates(s: string) {
    forall i, j :: 0 <= i < j < |s| ==> s[i] != s[j]
  }

  /** The characters with code points `lo`, `lo + 1`, ..., `hi - 1`, in that order. */
  function CharRange(lo: nat, hi: nat): (s: string)
    requires lo <= hi <= 0xD800
    ensures |s| == hi - lo
    ensures forall i :: 0 <= i < |s| ==> s[i] as int == lo + i
    decreases hi - lo
  {
    if lo == hi then "" else [lo as char] + CharRange(lo + 1, hi)
  }

  /**
   * The alphabet for one configuration, as the generator builds it: the
   * letters, then the digits if `numberAllowed`, then the symbols if
   * `charAllowed`.  It always starts with the 52 letters, so it is never
   * empty.
   */
  function Alphabet(numberAllowed: bool, charAllowed: bool): (str: string)
    ensures |Letters| <= |str| && str[..|Letters|] == Letters
  {
    Letters + (if numberAllowed then Digits else "") + (if charAllowed then Symbols else "")
  }

  // ---------------------------------------------------------------------------
  // The literal strings against the code-point definitions

  lemma CharRangeMembership(lo: nat, hi: nat, ch: char)
    requires lo <= hi <= 0xD800
    ensures ch in CharRange(lo, hi) <==> lo <= ch as int < hi
  {
    var s := CharRange(lo, hi);
    if lo <= ch as int < hi {
      assert s[ch as int - lo] == ch;
    }
  }

  lemma CharRangeNoDuplicates(lo: nat, hi: nat)
    requires lo <= hi <= 0xD800
    ensures NoDuplicates(CharRange(lo, hi))
  {
    var s := CharRange(lo, hi);
    forall i, j | 0 <= i < j < |s| ensures s[i] != s[j] {
      assert s[i] as int == lo + i && s[j] as int == lo + j;
    }
  }

  lemma UpperCaseIsARange()
    ensures CharRange('A' as nat, 'Z' as nat + 1) == "ABCDEFGHIJKLMNOPQRSTUVWXYZ"
  {
  }

  lemma LowerCaseIsARange()
    ensures CharRange('a' as nat, 'z' as nat + 1) == "abcdefghijklmnopqrstuvwxyz"
  {
  }

  lemma LettersAreUpperThenLower()
    ensures Letters == "ABCDEFGHIJKLMNOPQRSTUVWXYZ" + "abcdefghijklmnopqrstuvwxyz"
  {
  }

  /** The letter literal is the range A..Z followed by the range a..z. */
  lemma LettersAreTwoRanges()
    ensures Letters == CharRange('A' as nat, 'Z' as nat + 1) + CharRange('a' as nat, 'z' as nat + 1)
  {
    UpperCaseIsARange();
    LowerCaseIsARange();
    LettersAreUpperThenLower();
  }

  /** The digit literal is the range 0..9. */
  lemma DigitsAreARange()
    ensures Digits == CharRange('0' as nat, '9' as nat + 1)
  {
  }

  /** Exactly the 26 upper-case letters in order, then the 26 lower-case letters in order. */
  lemma LettersInOrder()
    ensures |Letters| == 52
    ensures forall i :: 0 <= i < 26 ==> Letters[i] as int == 'A' as int + i
    ensures forall i :: 26 <= i < 52 ==> Letters[i] as int == 'a' as int + (i - 26)
  {
    LettersAreTwoRanges();
  }

  lemma LettersMembership(ch: char)
    ensures ch in Letters <==> IsLetter(ch)
  {
    LettersAreTwoRanges();
    CharRangeMembership('A' as nat, 'Z' as nat + 1, ch);
    CharRangeMembership('a' as nat, 'z' as nat + 1, ch);
  }

  lemma DigitsMembership(ch: char)
    ensures ch in Digits <==> IsDigit(ch)
  {
    DigitsAreARange();
    CharRangeMembership('0' as nat, '9' as nat + 1, ch);
  }

  /** No special character is a letter or a digit. */
  lemma SymbolsAreNotAlphanumeric(ch: char)
    requires IsSymbol(ch)
    ensures !IsLetter(ch) && !IsDigit(ch)
  {
    var i :| 0 <= i < |Symbols| && Symbols[i] == ch;
    assert i < 9 || 9 <= i < 18;
  }

  // ---------------------------------------------------------------------------
  // The alphabet chosen by the two flags

  /** A character is offered exactly when it is a letter, an allowed digit or an allowed symbol. */
  lemma AlphabetMembership(numberAllowed: bool, charAllowed: bool, ch: char)
    ensures ch in Alphabet(numberAllowed, charAllowed)
        <==> IsLetter(ch) || (numberAllowed && IsDigit(ch)) || (charAllowed && IsSymbol(ch))
  {
    var d := if numberAllowed then Digits else "";
    var y := if charAllowed then Symbols else "";
    assert Alphabet(numberAllowed, charAllowed) == Letters + d + y;
    assert ch in Letters + d + y <==> ch in Letters || ch in d || ch in y;
    LettersMembership(ch);
    DigitsMembership(ch);
  }

  /** Digits are offered if and only if numbers are allowed. */
  lemma DigitOfferedIffNumberAllowed(numberAllowed: bool, charAllowed: bool, ch: char)
    requires IsDigit(ch)
    ensures ch in Alphabet(numberAllowed, charAllowed) <==> numberAllowed
  {
    AlphabetMembership(numberAllowed, charAllowed, ch);
    if IsSymbol(ch) {
      SymbolsAreNotAlphanumeric(ch);
    }
  }

  /** Special characters are offered if and only if they are allowed. */
  lemma SymbolOfferedIffCharAllowed(numberAllowed: bool, charAllowed: bool, ch: char)
    requires IsSymbol(ch)
    ensures ch in Alphabet(numberAllowed, charAllowed) <==> charAllowed
  {
    AlphabetMembership(numberAllowed, charAllowed, ch);
    SymbolsAreNotAlphanumeric(ch);
  }

  /** Where each part sits: letters first, digits at 52..61, symbols at the end. */
  lemma AlphabetLayout(numberAllowed: bool, charAllowed: bool)
    ensures var str := Alphabet(numberAllowed, charAllowed);
      && (numberAllowed ==> str[52..62] == Digits)
      && (charAllowed ==> |str| >= 70 && str[|str| - 18..] == Symbols)
      && (!numberAllowed && !charAllowed ==> str == Letters)
      && (numberAllowed && charAllowed ==> str == Letters + Digits + Symbols)
  {
    var str := Alphabet(numberAllowed, charAllowed);
    var d := if numberAllowed then Digits else "";
    var y := if charAllowed then Symbols else "";
    assert str == Letters + d + y;
    if numberAllowed {
      assert str[52..62] == d;
    }
    if charAllowed {
      assert str[|str| - 18..] == y;
    }
  }

  /** The four possible sizes: 52, 62, 70 and 80. */
  lemma AlphabetSize(numberAllowed: bool, charAllowed: bool)
    ensures |Alphabet(numberAllowed, charAllowed)|
         == 52 + (if numberAllowed then 10 else 0) + (if charAllowed then 18 else 0)
    ensures !numberAllowed && !charAllowed ==> |Alphabet(numberAllowed, charAllowed)| == 52
    ensures numberAllowed && !charAllowed ==> |Alphabet(numberAllowed, charAllowed)| == 62
    ensures !numberAllowed && charAllowed ==> |Alphabet(numberAllowed, charAllowed)| == 70
    ensures numberAllowed && charAllowed ==> |Alphabet(numberAllowed, charAllowed)| == 80
  {
  }

  /** Allowing numbers adds exactly ten characters and drops none. */
  lemma AllowingNumbersAddsTen(charAllowed: bool, ch: char)
    ensures |Alphabet(true, charAllowed)| == |Alphabet(false, charAllowed)| + 10
    ensures ch in Alphabet(false, charAllowed) ==> ch in Alphabet(true, charAllowed)
  {
    AlphabetMembership(false, charAllowed, ch);
    AlphabetMembership(true, charAllowed, ch);
  }

  /** Allowing special characters adds exactly eighteen characters and drops none. */
  lemma AllowingSymbolsAddsEighteen(numberAllowed: bool, ch: char)
    ensures |Alphabet(numberAllowed, true)| == |Alphabet(numberAllowed, false)| + 18
    ensures ch in Alphabet(numberAllowed, false) ==> ch in Alphabet(numberAllowed, true)
  {
    AlphabetMembership(numberAllowed, false, ch);
    AlphabetMembership(numberAllowed, true, ch);
  }

  // ---------------------------------------------------------------------------
  // Every character of the alphabet is distinct

  lemma ConcatNoDuplicates(a: string, b: string)
    requires NoDuplicates(a) && NoDuplicates(b)
    requires forall k :: 0 <= k < |a| ==> a[k] !in b
    ensures NoDuplicates(a + b)
  {
    var s := a + b;
    forall i, j | 0 <= i < j < |s| ensures s[i] != s[j] {
      if j >= |a| && i < |a| {
        assert s[j] == b[j - |a|];
      }
    }
  }

  lemma SymbolsNoDuplicates()
    ensures NoDuplicates(Symbols)
  {
  }

  /**
   * No character appears twice in any alphabet, so the alphabet offers 52,
   * 62, 70 or 80 different characters and each index picks a different one.
   */
  lemma AlphabetNoDuplicates(numberAllowed: bool, charAllowed: bool)
    ensures NoDuplicates(Alphabet(numberAllowed, charAllowed))
  {
    LettersAreTwoRanges();
    DigitsAreARange();
    var upper := CharRange('A' as nat, 'Z' as nat + 1);
    var lower := CharRange('a' as nat, 'z' as nat + 1);
    CharRangeNoDuplicates('A' as nat, 'Z' as nat + 1);
    CharRangeNoDuplicates('a' as nat, 'z' as nat + 1);
    CharRangeNoDuplicates('0' as nat, '9' as nat + 1);
    SymbolsNoDuplicates();
    forall k | 0 <= k < |upper| ensures upper[k] !in lower {
      CharRangeMembership('a' as nat, 'z' as nat + 1, upper[k]);
    }
    ConcatNoDuplicates(upper, lower);
    var d := if numberAllowed then Digits else "";
    var y := if charAllowed then Symbols else "";
    forall k | 0 <= k < |Letters| ensures Letters[k] !in d {
      LettersMembership(Letters[k]);
      DigitsMembership(Letters[k]);
    }
    ConcatNoDuplicates(Letters, d);
    forall k | 0 <= k < |Letters + d| ensures (Letters + d)[k] !in y {
      var ch := (Letters + d)[k];
      if ch in y {
        SymbolsAreNotAlphanumeric(ch);
        assert ch in Letters || ch in d;
        LettersMembership(ch);
        DigitsMembership(ch);
        assert false;
      }
    }
    ConcatNoDuplicates(Letters + d, y);
    assert Alphabet(numberAllowed, charAllowed) == Letters + d + y;
  }
}
