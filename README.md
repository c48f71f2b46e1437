# Number guessing game: the guess-checking state machine

This project models the logic of the single-page "guess the number" game in
`src/scripts/script.ts`. The game holds a secret target in 1..100 and a
counter of remaining wrong guesses that starts at 10. It also has a phase:
playing, or over once the input field and check button are disabled. Each
click on the check button handles the text in the input field:

- text that does not match `^[0-9]+$` only clears the field;
- a number above 100 shows "Please enter a number in the given range" and
  costs nothing;
- the target shows "Congratulations" and ends the game;
- any other number costs one guess; the game is lost when the counter
  reaches 0, and otherwise the message is "Your guess is high" or
  "Your guess is low".

Files:

- `digits.dfy`, module `Digits`. It holds the pattern check (`AllDigits`)
  and the value that `+guess` gives a digit string (`ParseDecimal`). It also
  holds the canonical rendering `DecimalString`, the inverse ParseDecimal is
  proved against, and lemmas on leading zeros and round trips.
- `game.dfy`, module `GuessGame`. It holds the reference definitions of the
  state machine: the `State` value and its invariant `Valid`, `Start` for
  `initialization`, `Next` for one click, and `Play` for a sequence of clicks.
  It also holds the class `Game`, whose fields `target`, `wrongGuess`, `over`
  and `lastMessage` are updated in place as the script's module-level
  variables and DOM flags are. The constructor and `Initialize` are proved to
  produce `Start(t)`, and `Check` to move the fields as `Next` moves the
  `State`. `ShowMessage` and `GameOver` each change one field and nothing
  else.
  `SampleRounds` plays a few example rounds through the class.

The invariant `State.Valid` says:

- the target is in 1..100;
- the counter is in 0..10, and at least 1 while playing;
- the game is over exactly when "Congratulations" or "You lost the game" is
  shown;
- the loss message is shown exactly when the counter is 0.

`Game.Check` requires the game to be playing, because `gameOver` disables the
check button. `Next` itself is total, like the handler, which never looks at
the phase.

Details of the code that the model keeps:

- The guess is converted with unary `+`. On a digit string this equals
  `parseInt`, leading zeros included.
- The messages are the code's exact strings (`Message.Text`).
- A rejected string leaves the last message on screen, because the handler
  only clears the field.
- A new round resets the existing variables in place.

## Model

| member | source | states |
|---|---|---|
| Digits.AllDigits | src/scripts/script.ts:112 | the string matches `^[0-9]+$`: it is non-empty and every character is one of "0123456789" |
| Digits.ParseDecimal | src/scripts/script.ts:113 | the value of a digit string as `+guess` reads it, most significant digit first; it is below 10^length, so it is unbounded but determined by the digits alone |
| Digits.DecimalString | src/scripts/script.ts:126 | `String(n)` on counts: an all-digit string with no superfluous leading zero that parses back to n; it serves as the inverse of ParseDecimal, and the counter display that uses `String` is itself not modelled |
| Digits.LeadingZero | src/scripts/script.ts:113-120 | a leading '0' keeps the string all-digit and does not change its value, so "050" compares equal to 50 |
| Digits.LeadingDigitBound | src/scripts/script.ts:113 | a digit string that does not start with '0' is worth at least 10^(length-1) |
| Digits.RenderParsed | src/scripts/script.ts:113-120 | parsing then rendering a canonical digit string gives the same string, so ParseDecimal and DecimalString are inverse on canonical strings |
| GuessGame.Start | src/scripts/script.ts:61-77 | the state a round starts in, for any target in 1..100, is playing and satisfies the game invariant |
| GuessGame.Next | src/scripts/script.ts:109-143 | one click: a non-digit string leaves the whole state (message included) unchanged; a value above 100 only sets the range message; the target sets over and "Congratulations" with the counter untouched, even on the last guess; the target never changes; the counter drops by exactly 1 if and only if the guess is an in-range miss; a miss ends the game exactly when it empties the counter, with the loss message; otherwise the message is High exactly when the value exceeds the target and Low exactly when it is below; a valid playing state goes to a valid state |
| GuessGame.Message.Text | src/scripts/script.ts:114-134 | the exact strings the handler shows ("Please enter a number in the given range", "Congratulations", "You lost the game", "Your guess is high", "Your guess is low"); the text is empty exactly for the hidden message |
| GuessGame.Play | src/scripts/script.ts:97-143 | a series of clicks on the check button: once the game is over the button is disabled and further clicks leave the state as it is; the target stays the same |
| GuessGame.PlayKeepsValid | src/scripts/script.ts:120-131 | over any sequence of clicks from a valid state (clicks after the game ends do nothing) the invariant holds, so the counter stays in 0..10 and never goes negative; the target stays fixed; the counter never grows |
| GuessGame.MissesLose | src/scripts/script.ts:124-131 | as many in-range misses as there are guesses left always end the round lost, with "You lost the game" and an empty counter |
| GuessGame.RejectedInputs | src/scripts/script.ts:140-142 | "", "-5", "3.5", " 7" and "abc" fail the pattern and leave the state unchanged |
| GuessGame.Game.constructor | src/scripts/script.ts:155 | the page load runs the initialization: the fields hold the start state for the drawn target and satisfy the invariant |
| GuessGame.Game.Initialize | src/scripts/script.ts:61-77 | from any prior state: the counter is 10, the target is the drawn one, the message is hidden, the phase is playing, and the invariant holds |
| GuessGame.Game.ShowMessage | src/scripts/script.ts:84-87 | the displayed message becomes the given one and nothing else changes |
| GuessGame.Game.GameOver | src/scripts/script.ts:93-102 | the phase becomes over and nothing else changes |
| GuessGame.Game.Check | src/scripts/script.ts:109-143 | while playing, a click moves the fields exactly as Next moves the state, so every property of Next holds of the object; the invariant is kept |

## Left out

- DOM work is left out: element lookups, `classList` changes, the counter's
  `textContent`, focus and blur, and clearing the input field (lines 5-33,
  51-54, 63, 67-76, 94-101, 126). Only the message shown and one phase flag,
  `over`, are modelled. The input field and the check button are enabled
  exactly when `over` is false; the replay button exactly when it is true.
- Drawing the target with `Math.trunc(Math.random() * 100 + 1)` (line 65)
  uses randomness and floating point. It is modelled as a parameter that
  must be in 1..100, so nothing is stated about uniformity.
- Registering the event listeners (lines 109, 149, 155) is left out. A click
  is a call of `Game.Check`, a replay is `Game.Initialize`, and the page load
  is the constructor.
- JavaScript number precision is not modelled: a digit string is parsed to
  an unbounded natural number. Any string too long to be exact is far above
  100, so it takes the out-of-range branch in both.
