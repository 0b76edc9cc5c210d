# Unscramble game session, modelled in Dafny

This project models the game session of the Unscramble Android app, the class
`GameViewModel`. The player is shown a dictionary word with its letters
shuffled and types a guess. A guess that matches the word, ignoring case,
scores `SCORE_INCREASE` points and moves to the next word. A wrong guess only
raises a flag. Skipping moves on without points. After `MAX_NO_OF_WORDS`
words the next answer or skip ends the game. `resetGame` starts over. No word
is shown twice in one game.

Modules, one per concern:

- `KotlinInt`: Kotlin's 32-bit `Int` as a newtype `Int32`. It has the
  wrapping `plus` and `inc` the session uses for the score and the round
  counter.
- `IgnoreCase`: `String.equals(other, ignoreCase = true)` on ASCII letters.
  It is proved equal to a lower-case-then-compare reference definition, in
  both directions, and proved to be an equivalence relation.
- `Scramble`: what a scramble is (an arrangement of the word's letters other
  than the word). The in-place shuffle of a `CharArray` is modelled as a
  nondeterministic choice. It is proved that a word has a scramble exactly
  when it has two different letters.
- `GameRules`: the session as a value (`Session`: the `GameUiState` snapshot,
  `currentWord`, `usedWords`, `userGuess`). It has one function per command,
  with the random outcome of a command passed in as a `Draw` (the word picked
  and its scramble). `Inv` is the session invariant. The lemmas state what
  each command does and that every command, and every sequence of commands,
  keeps `Inv`.
- `Ui`: the class `GameViewModel`. Its fields are the source's fields and its
  methods update them in place. Each command method (the constructor,
  `UpdateUserGuess`, `CheckUserGuess`, `UpdateGameState`, `ResetGame`,
  `SkipWord`) is proved to leave exactly the state that the matching
  `GameRules` function gives for the draw it made, and to make only draws the
  random source can produce. The two helpers have no matching function.
  `PickRandomWordAndShuffle` is proved to make an unused dictionary word
  current, add exactly that word to `usedWords`, and return a scramble of it.
  `ShuffleCurrentWord` is proved to return a scramble of its word.

Collaborators taken as parameters: the dictionary `allWords` and the
constants `MAX_NO_OF_WORDS` and `SCORE_INCREASE` come from the data module,
which is not part of this model. They are the constructor's arguments
(`GameRules.Config`). The constructor requires a usable configuration
(`ValidConfig`):
- at least one round per game;
- at least `MAX_NO_OF_WORDS` distinct words;
- every word has two different letters.

The source does not check any of this. Without it the source fails in
different ways:
- An empty dictionary makes `allWords.random()` (line 78) throw on the
  first draw.
- Running out of unused words makes the picker's plain recursion (line 81)
  go on until the call stack overflows.
- A word with no two different letters makes the `while` at lines 93-95
  loop forever.

`GameUiState` is defined outside `GameViewModel.kt`. Its defaults are taken
to be: empty scrambled word, round 1, score 0, no wrong guess, game not over (`GameRules.InitialUiState`).

Behaviour of the code worth knowing, which the model keeps:

- While the last round is open every word has been played and `isGameOver`
  is still false. The game ends only when that word is answered or skipped.
  So `Inv` states only that a finished game has played every word, and
  `GameRules.TwoRoundGame` exhibits an open round with every word played.
- `updateUserGuess` changes only `userGuess`. It does not clear the
  wrong-guess flag, which stays until the next answer or skip.
- `resetGame` does not clear `userGuess`. `GameRules.ResetGame` keeps it.
- Nothing stops `checkUserGuess` after the game is over. Each further
  correct guess adds `SCORE_INCREASE` again (`GameRules.GameOverIsFinal`).
  Repeated often enough, `Int.plus` wraps the score below zero, so the score
  is not always non-negative (`GameRules.ScoreWrapsAfterGameOver`).

## Model

| member | source | states |
|---|---|---|
| `KotlinInt.Plus` | app/src/main/java/com/example/unscramble/ui/GameViewModel.kt:40 | `score.plus(SCORE_INCREASE)` is the exact sum when it fits in an `Int`; otherwise it is the sum shifted by 2^32 back into range |
| `KotlinInt.Inc` | app/src/main/java/com/example/unscramble/ui/GameViewModel.kt:70 | `currentWordCount.inc()` is the successor, except that `Int.MAX_VALUE` wraps to `Int.MIN_VALUE` |
| `IgnoreCase.CharEqualsIgnoreCaseIff` | app/src/main/java/com/example/unscramble/ui/GameViewModel.kt:37 | two characters match ignoring case exactly when their lower-case forms are equal |
| `IgnoreCase.EqualsIgnoreCaseIff` | app/src/main/java/com/example/unscramble/ui/GameViewModel.kt:37 | the guess matches the word ignoring case if and only if both strings are equal once lower-cased |
| `IgnoreCase.EqualsIgnoreCaseIsEquivalence` | app/src/main/java/com/example/unscramble/ui/GameViewModel.kt:37 | matching ignoring case is reflexive, symmetric and transitive |
| `IgnoreCase.AppleExample` | app/src/main/java/com/example/unscramble/ui/GameViewModel.kt:37 | "APPLE", "apple" and "ApPlE" match "apple"; "APPLY" and "APPLES" do not |
| `Scramble.ScrambleExists` | app/src/main/java/com/example/unscramble/ui/GameViewModel.kt:93-95 | a word with two different letters has an arrangement different from itself |
| `Scramble.UniformWordHasNoScramble` | app/src/main/java/com/example/unscramble/ui/GameViewModel.kt:93-95 | for a word whose letters are all the same, every arrangement is the word itself, so the retry loop could never stop |
| `Scramble.ScramblableIff` | app/src/main/java/com/example/unscramble/ui/GameViewModel.kt:93-95 | the loop's exit condition can be met if and only if the word has two different letters |
| `Scramble.Shuffle` | app/src/main/java/com/example/unscramble/ui/GameViewModel.kt:92 | `CharArray.shuffle()` leaves the array holding an arrangement of its previous contents |
| `Scramble.ShuffleAwayFrom` | app/src/main/java/com/example/unscramble/ui/GameViewModel.kt:93-95 | the retried shuffle leaves an arrangement of the word's letters that is not the word |
| `GameRules.DrawExists` | app/src/main/java/com/example/unscramble/ui/GameViewModel.kt:77-85 | while fewer than `MAX_NO_OF_WORDS` words are used, some dictionary word is unused and has a scramble, so the picker's retries can succeed |
| `GameRules.LastRoundEndsGame` | app/src/main/java/com/example/unscramble/ui/GameViewModel.kt:54-62 | when `usedWords.size == MAX_NO_OF_WORDS`, advancing sets `isGameOver`, clears the wrong flag and takes the score; the word, scramble, round count and used words stay unchanged |
| `GameRules.NextRoundDrawsNewWord` | app/src/main/java/com/example/unscramble/ui/GameViewModel.kt:63-84 | otherwise advancing adds 1 to the round count, clears the wrong flag and takes the score; the new word was not used before, `usedWords` grows by exactly that word, and the screen shows a scramble of it |
| `GameRules.UpdateGameStatePreservesInv` | app/src/main/java/com/example/unscramble/ui/GameViewModel.kt:52-74 | advancing keeps the invariant: used words equal the round count in number, stay at most `MAX_NO_OF_WORDS`, are dictionary words, and game over implies all played |
| `GameRules.CorrectGuessScores` | app/src/main/java/com/example/unscramble/ui/GameViewModel.kt:37-41 | a guess equal to the word ignoring case adds `SCORE_INCREASE` (exactly, barring `Int` overflow), clears the flag, and otherwise advances as `updateGameState` does |
| `GameRules.WrongGuessOnlyFlags` | app/src/main/java/com/example/unscramble/ui/GameViewModel.kt:42-46 | a wrong guess sets `isGuessedWordWrong`; score, round count, scramble, game-over flag, current word and used words are unchanged |
| `GameRules.GuessIsConsumed` | app/src/main/java/com/example/unscramble/ui/GameViewModel.kt:49 | after `checkUserGuess`, and likewise after `skipWord` (line 111), `userGuess` is empty |
| `GameRules.SkipKeepsScore` | app/src/main/java/com/example/unscramble/ui/GameViewModel.kt:107-111 | skipping passes the current score unchanged to the advance step, so the score never changes on a skip |
| `GameRules.SkipAndCorrectGuessDifferOnlyInScore` | app/src/main/java/com/example/unscramble/ui/GameViewModel.kt:107-108 | from the same state and draw, a correct guess and a skip lead to the same state except for the score |
| `GameRules.CheckUserGuessPreservesInv` | app/src/main/java/com/example/unscramble/ui/GameViewModel.kt:36-50 | checking a guess keeps the session invariant |
| `GameRules.SkipWordPreservesInv` | app/src/main/java/com/example/unscramble/ui/GameViewModel.kt:107-112 | skipping keeps the session invariant |
| `GameRules.UpdateUserGuessPreservesInv` | app/src/main/java/com/example/unscramble/ui/GameViewModel.kt:32-34 | typing a guess keeps the session invariant |
| `GameRules.GameOverIsFinal` | app/src/main/java/com/example/unscramble/ui/GameViewModel.kt:36-62 | once the game is over, guessing and skipping keep it over with the same round, word, scramble and used words; a correct guess still adds `SCORE_INCREASE` |
| `GameRules.ScoreWrapsAfterGameOver` | app/src/main/java/com/example/unscramble/ui/GameViewModel.kt:37-41 | after game over, a correct guess at score `Int.MAX_VALUE` with a positive increase leaves a negative score and the game still over |
| `GameRules.RoundCountMatchesWordsPlayed` | app/src/main/java/com/example/unscramble/ui/GameViewModel.kt:53-54 | the commented-out test `currentWordCount == MAX_NO_OF_WORDS` agrees with the test used, `usedWords.size == MAX_NO_OF_WORDS`; a finished game has both equal to the maximum |
| `GameRules.ResetGameStartsOver` | app/src/main/java/com/example/unscramble/ui/GameViewModel.kt:102-105 | after a reset, `usedWords` holds exactly the new current word; the snapshot is the default one (round 1, score 0, flags clear) showing a scramble of that word; the guess is untouched |
| `GameRules.ResetGameEstablishesInv` | app/src/main/java/com/example/unscramble/ui/GameViewModel.kt:102-105 | a reset from any state establishes the session invariant |
| `GameRules.StepDrawExists` | app/src/main/java/com/example/unscramble/ui/GameViewModel.kt:77-86 | under the invariant, every command can make the draw it needs, so no word pick retries forever |
| `GameRules.StepPreservesInv` | app/src/main/java/com/example/unscramble/ui/GameViewModel.kt:32-112 | each of the four commands keeps the invariant |
| `GameRules.RunPreservesInv` | app/src/main/java/com/example/unscramble/ui/GameViewModel.kt:32-112 | any sequence of commands keeps the invariant |
| `GameRules.GameKeepsInvariant` | app/src/main/java/com/example/unscramble/ui/GameViewModel.kt:15-117 | however a game is played from construction, the used words are distinct dictionary words, as many as the round count, at most `MAX_NO_OF_WORDS`, all of them once the game is over; the screen shows a scramble of the current word |
| `GameRules.TwoRoundGame` | app/src/main/java/com/example/unscramble/ui/GameViewModel.kt:36-74 | with words "cat" and "dog", 2 rounds and 20 points: round 1 at score 0, then score 20 in round 2 (game not over though both words are used), then score 40 with the game over and round 2's count and scramble kept |
| `GameRules.WrongThenCorrectGuess` | app/src/main/java/com/example/unscramble/ui/GameViewModel.kt:36-50 | a wrong guess keeps score 0 and round 1 with the flag set; clearing and retyping the right word then scores 20 and moves to round 2 with the flag clear |
| `Ui.GameViewModel.constructor` | app/src/main/java/com/example/unscramble/ui/GameViewModel.kt:114-116 | a new view model is round 1 of a new game with an empty guess, drawn from an empty used-word set, and satisfies the invariant |
| `Ui.GameViewModel.UpdateUserGuess` | app/src/main/java/com/example/unscramble/ui/GameViewModel.kt:32-34 | only `userGuess` changes, to the given text |
| `Ui.GameViewModel.CheckUserGuess` | app/src/main/java/com/example/unscramble/ui/GameViewModel.kt:36-50 | the new fields are `GameRules.CheckUserGuess` of the old ones, with a draw the random source can produce; the invariant is kept |
| `Ui.GameViewModel.UpdateGameState` | app/src/main/java/com/example/unscramble/ui/GameViewModel.kt:52-74 | the new fields are `GameRules.UpdateGameState` of the old ones, with a draw the random source can produce; the invariant is kept |
| `Ui.GameViewModel.PickRandomWordAndShuffle` | app/src/main/java/com/example/unscramble/ui/GameViewModel.kt:77-86 | the new `currentWord` is a dictionary word that was not used, `usedWords` gains exactly it, and the result is a scramble of it |
| `Ui.GameViewModel.ShuffleCurrentWord` | app/src/main/java/com/example/unscramble/ui/GameViewModel.kt:88-99 | the result is an arrangement of the word's letters and differs from the word |
| `Ui.GameViewModel.ResetGame` | app/src/main/java/com/example/unscramble/ui/GameViewModel.kt:102-105 | the new fields are `GameRules.ResetGame` of the old ones, with a word drawn from the whole dictionary; the invariant is established from any state |
| `Ui.GameViewModel.SkipWord` | app/src/main/java/com/example/unscramble/ui/GameViewModel.kt:107-112 | the new fields are `GameRules.SkipWord` of the old ones, with a draw the random source can produce; the invariant is kept |

## Left out

- Android `ViewModel`, `MutableStateFlow`/`StateFlow`/`asStateFlow` and Compose `mutableStateOf`: observable plumbing. `_uiState` is a plain field holding a `GameUiState` value. The read-only `uiState` view exposes only the snapshot, the field `uiState` (`State().uiState`); `State()` itself also holds the private fields. The compare-and-set retry inside `update` is not modelled: the session runs on one thread.
- The random source: `allWords.random()` and `CharArray.shuffle()` are library calls. They are replaced by nondeterministic choice. A pick is any dictionary word. A shuffle is any arrangement of the array's contents.
- Ui.GameViewModel.PickRandomWordAndShuffle: the retry by recursion when the drawn word is already used (lines 80-81) is collapsed. The model chooses directly among the unused words, which is where the retries end. When no unused word is left, the source's recursion overflows the call stack, and an empty dictionary makes `allWords.random()` throw. The constructor's configuration requirement and `GameRules.DrawExists` exclude both.
- Ui.GameViewModel.ShuffleCurrentWord: each retry of the loop at lines 93-95 is modelled by `Scramble.ShuffleAwayFrom`, a shuffle that lands on an arrangement other than the word. That is the outcome the source's repeated random shuffles reach, so the model's loop body runs at most once. How many retries the source makes is not modelled.
- Strings are sequences of Unicode scalar values, not of UTF-16 code units. `toCharArray()`, `shuffle()` and `equals` (lines 37 and 89-94) work on code units. So a word made of one character outside the Basic Multilingual Plane, such as "𝒜", has no scramble in the model (`Scramble.Scramblable` is false). In the source its two surrogate code units differ, and the loop returns them swapped.
- Kotlin's full Unicode case mapping in `equals(ignoreCase = true)`: only ASCII letters are case-folded; every other character matches only itself.
- The insertion order of the `LinkedHashSet` behind `mutableSetOf()`: no behaviour depends on it, so `usedWords` is a `set`.
- The data module (`allWords`, `MAX_NO_OF_WORDS`, `SCORE_INCREASE`) and the definition of `GameUiState` are not part of this model. They are constructor arguments and an assumed default snapshot.
- Reading the `lateinit` `currentWord` before it is set: `init` always resets first, so it cannot happen. The constructor leaves it empty until `ResetGame` sets it.
- Ui.GameViewModel preconditions: the source states none. `UpdateUserGuess`, `CheckUserGuess`, `UpdateGameState` and `SkipWord` require the object invariant `Valid()`, which the constructor establishes and every method keeps. `ResetGame` requires only `ValidConfig(config)`. `PickRandomWordAndShuffle` requires `ValidConfig(config)` and that some valid draw exists for the current `usedWords`. `ShuffleCurrentWord` requires `Scramble.Scramblable(word)`. Each holds in every reachable state.
