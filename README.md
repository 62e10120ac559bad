# Password generator widget, modelled in Dafny

The application is a single widget that generates a random password. It holds
four pieces of state: a length (8 at first), a "numbers" flag and a
"characters" flag (both off at first) and the current password (empty at
first). The generator builds an alphabet: the 52 letters `A`–`Z` then `a`–`z`,
then the digits `0123456789` if numbers are allowed, then the 18 symbols
``!@#$%^&*-_+=[]{}~` `` if characters are allowed. It then appends `length`
characters, each taken at a random index of that alphabet, and stores the
result as the password. A new length or a flipped checkbox makes the
generator run again.

The project has three modules, one per part of that behaviour:

- `Charset` (`charset.dfy`): the three literal strings, the alphabet the two
  flags select, and proofs that the literals are exactly the code-point ranges
  they spell. It proves which characters each configuration offers, where each
  part sits, the four sizes (52, 62, 70, 80) and that no character repeats.
- `Generator` (`generator.dfy`): the generator's body as a method with the
  source's `for` loop (`BuildPassword`). It is proved against the specification
  function `Pick`, which says the password has one character per draw and that
  character `i` is the alphabet's character at the `i`-th drawn index.
- `PasswordApp` (`app.dfy`): the widget state as a class `App` with the
  generator, the slider setter and the two checkbox toggles as methods. It has
  a `Consistent` predicate: the password has the current length and uses only
  the current alphabet. Every regeneration establishes it. The initial state
  does not satisfy it; the generator's first run on mount does.

Randomness is a parameter. Each run of the generator receives the trace of
indices the random source produced, one per loop iteration, each below the
alphabet's size. A run is therefore a function of the configuration and that
trace: the same configuration and the same trace give the same password.

The code does not check the length; only the slider's `min`/`max` of 6 and
100 (src/App.jsx:65-66) limit it. Here the length is any natural number, and
length 0 gives the empty password. Generation ends by writing the password
state (src/App.jsx:28), and `App.PasswordGenerator` does the same.

## Model

| member | source | states |
|---|---|---|
| `Charset.Alphabet` | src/App.jsx:18-20 | the alphabet always begins with the 52 letters, so it is never empty and every index below 52 is valid |
| `Charset.LettersAreTwoRanges` | src/App.jsx:18 | the letter literal is exactly code points `A`..`Z` followed by `a`..`z` |
| `Charset.DigitsAreARange` | src/App.jsx:19 | the digit literal is exactly code points `0`..`9` |
| `Charset.LettersInOrder` | src/App.jsx:18 | the base alphabet has 52 characters: the 26 upper-case letters in order, then the 26 lower-case letters in order |
| `Charset.LettersMembership` | src/App.jsx:18 | a character is in the base alphabet if and only if it is an ASCII letter |
| `Charset.DigitsMembership` | src/App.jsx:19 | a character is in the digit string if and only if it is an ASCII digit |
| `Charset.SymbolsAreNotAlphanumeric` | src/App.jsx:20 | no special character is a letter or a digit |
| `Charset.AlphabetMembership` | src/App.jsx:18-20 | a character is offered if and only if it is a letter, or a digit with numbers allowed, or a symbol with characters allowed |
| `Charset.DigitOfferedIffNumberAllowed` | src/App.jsx:19 | each digit is in the alphabet if and only if numbers are allowed |
| `Charset.SymbolOfferedIffCharAllowed` | src/App.jsx:20 | each special character is in the alphabet if and only if characters are allowed |
| `Charset.AlphabetLayout` | src/App.jsx:18-20 | digits occupy positions 52..61 when allowed, the symbols are the last 18 characters when allowed (after the digits when both are on), and with both flags off the alphabet is the letters alone |
| `Charset.AlphabetSize` | src/App.jsx:18-20 | the alphabet has 52, 62, 70 or 80 characters for the four flag combinations |
| `Charset.AllowingNumbersAddsTen` | src/App.jsx:19 | turning numbers on adds exactly 10 characters and removes none |
| `Charset.AllowingSymbolsAddsEighteen` | src/App.jsx:20 | turning characters on adds exactly 18 characters and removes none |
| `Charset.AlphabetNoDuplicates` | src/App.jsx:18-20 | no character occurs twice in any alphabet, so each index names a different character |
| `Generator.Pick` | src/App.jsx:22-26 | appending one picked character per draw yields one character per draw, character `i` being the alphabet's character at draw `i` |
| `Generator.BuildPassword` | src/App.jsx:17-26 | the loop builds the alphabet the flags select and returns the `Pick` of it; the password has exactly `length` characters, each in that alphabet; after `k` iterations `pass` holds the first `k` picks |
| `Generator.PasswordCharacters` | src/App.jsx:23-25 | every password character is a letter, or a digit only if numbers are allowed, or a symbol only if characters are allowed |
| `Generator.DefaultPasswordIsLetters` | src/App.jsx:18-25 | with both flags off, every password character is an ASCII letter |
| `Generator.LetterIndicesAlwaysFit` | src/App.jsx:18-23 | draws below 52 are valid under every configuration and pick the same letters whatever the flags |
| `PasswordApp.Flip` | src/App.jsx:79 | the checkbox updater returns the opposite of the previous flag |
| `PasswordApp.App.constructor` | src/App.jsx:6-10 | the initial state is length 8, both flags off, empty password |
| `PasswordApp.App.PasswordGenerator` | src/App.jsx:16-31 | the password is replaced wholesale by the `Pick` of the current alphabet; length and flags are unchanged; afterwards the password is consistent with the configuration |
| `PasswordApp.App.SetLength` | src/App.jsx:39-41 | the slider's `setLength` call (line 69) followed by the effect: the length becomes `n`; a new value regenerates the password for the current flags and the same value leaves the password as it was; the flags are unchanged |
| `PasswordApp.App.ToggleNumbers` | src/App.jsx:78-80 | flips only the numbers flag, then regenerates over the new alphabet; the password is consistent afterwards |
| `PasswordApp.App.ToggleChars` | src/App.jsx:89-91 | flips only the characters flag, then regenerates over the new alphabet; the password is consistent afterwards |

## Left out

- `Math.random()` and the floating-point multiply and floor that turn it into an index. Each draw is a supplied natural number below the alphabet's size. Nothing is claimed about uniformity or entropy.
- React's hook machinery: `useState`, `useCallback` memoisation, `useRef` and the scheduling of `useEffect`. A configuration change is modelled as the setter followed at once by the generator. The run on mount is the client's first call of `App.PasswordGenerator`.
- Copying to the clipboard (`copyPasswordToClipboard`: selecting the field, the selection range and `navigator.clipboard.writeText`). This is platform I/O whose result the widget never uses.
- The JSX markup, styling and the slider's `min`/`max` of 6 and 100. Those bounds live only in the markup, so the model does not require them.
- `PasswordApp.App.SetLength`: the slider hands over `e.target.value`, a string, which JavaScript coerces to a number only in the loop test `i <= length` (src/App.jsx:22). React's same-state test uses `Object.is`, which does not coerce, so the string "8" and the initial number 8 are different states, while the model takes the length as a natural number and treats them as equal. No slider input reaches this difference, because the slider fires only when its value changes.
