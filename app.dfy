/**
 * The state of the password widget and the rule that keeps the password in
 * step with it.
 *
 * The widget holds a length, two flags and the current password.  The
 * slider sets the length and each checkbox flips its flag; whenever one of
 * the three configuration fields takes a new value the generator runs again
 * and its result replaces the password.  The generator also runs once right
 * after the widget first appears, which is what turns the initial empty
 * password into one that fits the configuration.
 */
module PasswordApp {
  import opened Charset
  import opened Generator

  /** The checkbox updater: the new flag is the opposite of the previous one. */
  function Flip(prev: bool): (next: bool)
    ensures next != prev
  {
    !prev
  }

  class App {
    var length: nat
    var numberAllowed: bool
    var charAllowed: bool
    var password: string

    /** The state before anything has run: length 8, both flags off, no password. */
    constructor ()
      ensures length == 8 && !numberAllowed && !charAllowed && password == ""
    {
      length := 8;
      numberAllowed := false;
      charAllowed := false;
      password := "";
    }

    /** The alphabet the current flags select. */
    function CurrentAlphabet(): (str: string)
      reads this
      ensures |str| >= 52
    {
      Alphabet(numberAllowed, charAllowed)
    }

    /**
     * The password was generated for the current configuration: it has the
     * current length and draws only on the current alphabet.
     */
    predicate Consistent()
      reads this
    {
      |password| == length
      && forall k :: 0 <= k < |password| ==> password[k] in CurrentAlphabet()
    }

    /**
     * Run the generator and store its result, replacing the old password
     * wholesale; the configuration is left as it was.
     */
    method PasswordGenerator(draws: seq<nat>)
      requires |draws| == length && DrawsFit(CurrentAlphabet(), draws)
      modifies this
      ensures length == old(length)
      ensures numberAllowed == old(numberAllowed) && charAllowed == old(charAllowed)
      ensures password == Pick(CurrentAlphabet(), draws)
      ensures Consistent()
    {
      var pass := BuildPassword(length, numberAllowed, charAllowed, draws);
      password := pass;
    }

    /**
     * The slider moved to `n`.  A new value regenerates the password; the
     * value already held changes nothing, since no dependency of the
     * generator changed.
     */
    method SetLength(n: nat, draws: seq<nat>)
      requires |draws| == n && DrawsFit(CurrentAlphabet(), draws)
      modifies this
      ensures length == n
      ensures numberAllowed == old(numberAllowed) && charAllowed == old(charAllowed)
      ensures password == if n == old(length) then old(password) else Pick(CurrentAlphabet(), draws)
      ensures n != old(length) || old(Consistent()) ==> Consistent()
    {
      if n != length {
        length := n;
        PasswordGenerator(draws);
      }
    }

    /** The numbers checkbox was clicked: flip the flag, then regenerate. */
    method ToggleNumbers(draws: seq<nat>)
      requires |draws| == length && DrawsFit(Alphabet(!numberAllowed, charAllowed), draws)
      modifies this
      ensures numberAllowed == !old(numberAllowed)
      ensures length == old(length) && charAllowed == old(charAllowed)
      ensures password == Pick(CurrentAlphabet(), draws)
      ensures Consistent()
    {
      numberAllowed := Flip(numberAllowed);
      PasswordGenerator(draws);
    }

    /** The characters checkbox was clicked: flip the flag, then regenerate. */
    method ToggleChars(draws: seq<nat>)
      requires |draws| == length && DrawsFit(Alphabet(numberAllowed, !charAllowed), draws)
      modifies this
      ensures charAllowed == !old(charAllowed)
      ensures length == old(length) && numberAllowed == old(numberAllowed)
      ensures password == Pick(CurrentAlphabet(), draws)
      ensures Consistent()
    {
      charAllowed := Flip(charAllowed);
      PasswordGenerator(draws);
    }
  }

  /**
   * A session as a user would drive it: the widget appears, the generator
   * runs on mount, the slider moves from 8 to 16 and both boxes are ticked.
   */
  method Session(mount: seq<nat>, longer: seq<nat>, withDigits: seq<nat>, withBoth: seq<nat>)
    requires |mount| == 8 && DrawsFit(Letters, mount)
    requires |longer| == 16 && DrawsFit(Letters, longer)
    requires |withDigits| == 16 && DrawsFit(Alphabet(true, false), withDigits)
    requires |withBoth| == 16 && DrawsFit(Alphabet(true, true), withBoth)
  {
    var app := new App();
    assert !app.Consistent();
    assert Alphabet(false, false) == Letters;
    app.PasswordGenerator(mount);
    assert |app.password| == 8;
    DefaultPasswordIsLetters(mount);
    assert forall k :: 0 <= k < 8 ==> IsLetter(app.password[k]);

    app.SetLength(16, longer);
    assert |app.password| == 16 && app.password == Pick(Letters, longer);

    app.ToggleNumbers(withDigits);
    app.ToggleChars(withBoth);
    assert app.numberAllowed && app.charAllowed && app.length == 16;
    assert app.Consistent();
    assert |app.CurrentAlphabet()| == 80;
  }
}
