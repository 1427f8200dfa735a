# Unscramble game state, modelled in Dafny

The Unscramble game shows a word with its letters scrambled. The player types a
guess. A guess that matches the hidden word, ignoring case, scores
`SCORE_INCREASE` points and moves on to a word not yet shown in the session. A
guess that does not match raises a "wrong guess" flag and changes nothing else.
Either way, the pending guess is then cleared. `resetGame` starts a new session.

The model has one module per piece of the game's logic:

- `UiState` (`game_ui_state.dfy`) models `GameUiState`, the immutable screen state.
  It is a datatype with the same default values as the Kotlin record. The update
  expression `s.(f := v)` stands for Kotlin's `copy`.
- `Game` (`game_view_model.dfy`) models `GameViewModel` as a class with the fields
  `uiState` (the value `_uiState.value` holds), `currentWord`, `usedWords` and
  `userGuess`. Its methods `UpdateUserGuess`, `CheckUserGuess`, `ResetGame`,
  `PickRandomWordAndShuffle`, `ShuffleCurrentWord` and `UpdateGameState` follow the
  Kotlin functions of the same names, statement by statement. The constructor
  calls `ResetGame`, as the `init` block does.
- The object invariant `Valid()` uses a ghost field `presented`, the words shown
  in this session in order. It states that:
  - no word has been shown twice;
  - every shown word comes from the list;
  - `usedWords` is exactly the set of shown words;
  - `currentWord` is the last word shown;
  - the screen shows a true scramble of `currentWord`: the same letters, never
    the word itself;
  - the score is one `SCORE_INCREASE` per solved word, in 32-bit arithmetic.

  The constructor and `ResetGame` establish `Valid()`, and `CheckUserGuess`
  preserves it.
- Three modules model the library calls the core relies on:
  - `Int32` (`int32.dfy`) models Kotlin's `Int` and its wrap-around `plus`.
  - `Text` (`text.dfy`) models `String.equals(other, ignoreCase = true)`.
  - `Shuffling` (`shuffle.dfy`) models `CharArray.shuffle()` as the stdlib's
    in-place Fisher–Yates loop over a `char` array.
- `GameScenario` walks the class through a session on `["go", "up"]` with fixed
  draws and proves that a correct guess typed as `"GO"` scores 20 points and
  moves on to `"up"`, and that a wrong guess only raises the flag.

Outside inputs become parameters:

- The word list `allWords` and the constant `SCORE_INCREASE` are constructor
  arguments.
- Randomness is an oracle:
  - A `draws: seq<nat>` argument gives the successive results of
    `allWords.random()`. Draw `d` picks `allWords[d % |allWords|]`.
  - A `rounds: seq<seq<nat>>` argument gives the draws of successive `shuffle()`
    calls. Step `i` of a shuffle swaps position `i` with `round[i] % (i + 1)`.

Neither retry in the Kotlin code is sure to stop, so both need preconditions:

- `DrawsReachUnused` says some draw lands on an unused word.
- `Scramblable` says some shuffle round moves the word.

`ScramblableIffTwoDistinct` proves that `Scramblable` can be met exactly when the
word has two different characters. This is the condition under which the shuffle
loop can stop at all.

Two behaviours of the code that the model excludes or simplifies:

- With every word used, the code's `pickRandomWordAndShuffle`, which is not
  `tailrec`, calls itself until the recursion overflows the JVM stack
  (`StackOverflowError`). It raises no "words exhausted" error. The model
  excludes this case with `DrawsReachUnused`.
- `_uiState.update` re-runs its lambda only under concurrent writes. The model
  runs the lambda once.

## Model

| member | source | states |
|---|---|---|
| `Game.GameViewModel.constructor` | app/src/main/java/com/example/unscramble/ui/GameViewModel.kt:18-29 | a new view model has started a session: `Valid()`, one used word drawn from the list, a scramble of it with score 0 and no error, an empty guess |
| `Game.GameViewModel.UpdateUserGuess` | app/src/main/java/com/example/unscramble/ui/GameViewModel.kt:31-33 | the pending guess becomes the given text; the frame leaves every other field as it was |
| `Game.GameViewModel.CheckUserGuess` | app/src/main/java/com/example/unscramble/ui/GameViewModel.kt:35-52 | on a case-insensitive match: score becomes `Plus(old score, SCORE_INCREASE)`, flag cleared, a word outside the old `usedWords` becomes current and is added to it, its scramble is shown; on a miss: only the flag is set, word, scramble, score and used words unchanged; both ways the guess is `""` and `Valid()` is preserved |
| `Game.GameViewModel.ResetGame` | app/src/main/java/com/example/unscramble/ui/GameViewModel.kt:59-67 | afterwards `Valid()`, `usedWords == {currentWord}`, the current word is from the list, the screen shows its scramble with score 0 and the flag false |
| `Game.GameViewModel.PickRandomWordAndShuffle` | app/src/main/java/com/example/unscramble/ui/GameViewModel.kt:77-87 | the chosen word was not in `usedWords` before the call, `usedWords` grows by exactly that word, and the result is its scramble |
| `Game.GameViewModel.ShuffleCurrentWord` | app/src/main/java/com/example/unscramble/ui/GameViewModel.kt:89-98 | the result has the same characters with the same counts as the word and differs from it; it is the first round's shuffle that differs |
| `Game.GameViewModel.UpdateGameState` | app/src/main/java/com/example/unscramble/ui/GameViewModel.kt:99-107 | the new screen state is the old one with the flag false, the fresh scramble and the given score; the current and used words advance as in the pick |
| `Game.Drawn` | app/src/main/java/com/example/unscramble/ui/GameViewModel.kt:78 | `allWords.random()` yields a word of the list, the one the draw selects |
| `Game.PickedWord` | app/src/main/java/com/example/unscramble/ui/GameViewModel.kt:78-81 | the word the retries settle on is from the list and not already used |
| `Game.Scrambled` | app/src/main/java/com/example/unscramble/ui/GameViewModel.kt:92-95 | the word the shuffle loop settles on is a rearrangement of the word's characters and not the word itself |
| `Game.ScrambledSkipsIdentity` | app/src/main/java/com/example/unscramble/ui/GameViewModel.kt:93-94 | unfolding of `Scrambled` used by the shuffle loop's proof: a shuffle that gives back the word is retried with the next round |
| `Game.ScrambledTakesFirstMove` | app/src/main/java/com/example/unscramble/ui/GameViewModel.kt:93-97 | unfolding of `Scrambled` used by the shuffle loop's proof: the first shuffle that differs from the word is the one returned |
| `Game.ScramblableIffTwoDistinct` | app/src/main/java/com/example/unscramble/ui/GameViewModel.kt:92-95 | the shuffle loop can stop for some random draws exactly when the word has two different characters |
| `Game.SessionAtMostListLength` | app/src/main/java/com/example/unscramble/ui/GameViewModel.kt:80-84 | since no word repeats within a session, `usedWords` has as many elements as words shown, and at most as many as the list |
| `Game.ScoreCountsSolvedWords` | app/src/main/java/com/example/unscramble/ui/GameViewModel.kt:41-42 | when the whole list times `SCORE_INCREASE` fits in an `Int`, the score is exactly `SCORE_INCREASE` times the number of words solved |
| `Game.DistinctWithin` | app/src/main/java/com/example/unscramble/ui/GameViewModel.kt:80-84 | a list of words without repeats, all taken from the word list, is no longer than the word list |
| `Int32.Wrap` | app/src/main/java/com/example/unscramble/ui/GameViewModel.kt:41 | the 32-bit value is congruent to the integer modulo 2^32 and equals it when it is in range |
| `Int32.Plus` | app/src/main/java/com/example/unscramble/ui/GameViewModel.kt:41 | `score.plus(SCORE_INCREASE)` is the sum modulo 2^32, and exactly the sum when no overflow occurs |
| `Int32.WrapAdd` | app/src/main/java/com/example/unscramble/ui/GameViewModel.kt:41 | wrapping part-way through a sum does not change the wrapped total |
| `Int32.PlusCounts` | app/src/main/java/com/example/unscramble/ui/GameViewModel.kt:41-42 | adding `SCORE_INCREASE` to the score for n solved words gives the score for n + 1 |
| `Int32.CountWithoutWrap` | app/src/main/java/com/example/unscramble/ui/GameViewModel.kt:41 | n steps of a non-negative increment within a bound that fits in 32 bits never wrap |
| `Text.EqualsIgnoreCase` | app/src/main/java/com/example/unscramble/ui/GameViewModel.kt:37 | `userGuess.equals(currentWord, ignoreCase = true)`: the exact word is always accepted, and only a guess of the same length can be |
| `Text.EqualsIgnoreCaseIffSameUppercase` | app/src/main/java/com/example/unscramble/ui/GameViewModel.kt:37 | the guess matches ignoring case exactly when both strings have the same upper-case form |
| `Text.EqualsIgnoreCaseEquivalence` | app/src/main/java/com/example/unscramble/ui/GameViewModel.kt:37 | the case-insensitive comparison is reflexive, symmetric and transitive |
| `Text.UppercaseMatches` | app/src/main/java/com/example/unscramble/ui/GameViewModel.kt:37 | the word typed in capitals is accepted |
| `Text.CaseInsensitiveExamples` | app/src/main/java/com/example/unscramble/ui/GameViewModel.kt:37 | "CAT" matches "cat"; "xyz" and "ca" do not |
| `Shuffling.Choice` | app/src/main/java/com/example/unscramble/ui/GameViewModel.kt:92 | `Random.nextInt(i + 1)` inside `shuffle()`: the index drawn at step i is at most i |
| `Shuffling.ShuffleSteps` | app/src/main/java/com/example/unscramble/ui/GameViewModel.kt:92 | the steps i, i - 1, ..., 1 of the stdlib's Fisher–Yates loop behind `shuffle()`, each swapping position i with the drawn index; the length is kept |
| `Shuffling.Shuffled` | app/src/main/java/com/example/unscramble/ui/GameViewModel.kt:92-94 | one whole `shuffle()` of the word under one round of draws: same length, and a word of at most one character is left as it is |
| `Shuffling.Shuffle` | app/src/main/java/com/example/unscramble/ui/GameViewModel.kt:92 | the in-place shuffle leaves the array holding `Shuffled` of its old contents |
| `Shuffling.ShuffledIsPermutation` | app/src/main/java/com/example/unscramble/ui/GameViewModel.kt:90-92 | a shuffle keeps the length and the multiset of characters |
| `Shuffling.OnlyArrangement` | app/src/main/java/com/example/unscramble/ui/GameViewModel.kt:93-95 | a word whose characters are all equal has no other arrangement, so no shuffle can move it |
| `Shuffling.ShuffleMovesOnlyTwoDistinct` | app/src/main/java/com/example/unscramble/ui/GameViewModel.kt:93-95 | a shuffle that changes the word implies the word has two different characters |
| `Shuffling.ShuffleCanMove` | app/src/main/java/com/example/unscramble/ui/GameViewModel.kt:93-95 | a word with two different characters has draws whose shuffle changes it |
| `UiState.DefaultState` | app/src/main/java/com/example/unscramble/ui/GameUiState.kt:4-6 | the defaults are an empty scrambled word, no error flag and score 0 |
| `UiState.NamedWordOnly` | app/src/main/java/com/example/unscramble/ui/GameViewModel.kt:67 | building the state from the scrambled word alone leaves the flag false and the score 0 |
| `UiState.CopyChangesOnlyNamedField` | app/src/main/java/com/example/unscramble/ui/GameViewModel.kt:46-48 | the copy that sets the wrong-guess flag keeps the scrambled word and the score |
| `UiState.EqualIffFieldsEqual` | app/src/main/java/com/example/unscramble/ui/GameUiState.kt:3-7 | two states are equal exactly when all three fields are equal |

## Left out

- Logging through `android.util.Log` is left out. It has no effect on the state.
- The `ViewModel` lifecycle, the `MutableStateFlow`/`StateFlow` notification of
  observers, the read-only `asStateFlow` view and Compose's `mutableStateOf`
  delegation are left out. This is framework plumbing. `_uiState.value` is a plain
  field.
- The commented-out replacement of the whole `MutableStateFlow` in `resetGame` is
  left out. It is dead code.
- The contents of the word list and the value of `SCORE_INCREASE` are defined
  outside this model. They are constructor arguments.
- Randomness is an oracle of draws. The model does not claim uniform word
  choice or uniform shuffles.
- An exhausted word list is excluded by the `DrawsReachUnused` precondition. On
  it, the Kotlin code's recursion overflows the JVM stack (`StackOverflowError`).
- An empty word list is excluded by the `|words| > 0` conjunct of
  `DrawsReachUnused`. On it, `allWords.random()` throws
  `NoSuchElementException`.
- `_uiState.update` retries its lambda when another writer changed the state
  in between. There is one writer here, so the model runs the lambda once.
- A shuffle that never moves the word is excluded by the `Scramblable`
  precondition. On it, the Kotlin code loops without end (for words without
  surrogate pairs; see the next line). `ScramblableIffTwoDistinct`
  shows this precondition can be met exactly for words with two different
  characters.
- `Game.GameViewModel.ShuffleCurrentWord`: characters are modelled as Unicode
  scalar values, not UTF-16 code units, so the model is exact only for words
  without surrogate pairs. On other words, Kotlin's `toCharArray()` and
  `shuffle()` permute code units and may split a pair; `IsScrambleOf`, `Valid()`
  and `Scramblable` then describe whole characters instead.
- `Text.EqualsIgnoreCase`: case folding covers ASCII letters
  only, not Kotlin's full Unicode upper- and lower-casing.
