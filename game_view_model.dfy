/** The `ui` package's `GameViewModel`: one game session whose fields the
    commands update in place. Each command is proved to produce exactly
    the state the matching function of `GameRules` describes, for the
    word and scramble it drew, and to draw only what the random source
    can produce; the lemmas of `GameRules` then say what that state is. */
module Ui {
  import opened KotlinInt
  import opened GameRules
  import IgnoreCase
  import Scramble

  class GameViewModel {
    /** The dictionary and constants from the data module. */
    const config: Config

    /** `_uiState`: the snapshot the screen observes. */
    var uiState: GameUiState
    /** The unscrambled word of the current round. */
    var currentWord: string
    /** Every word shown in this game, the current one included. */
    var usedWords: set<string>
    /** What the player has typed so far. */
    var userGuess: string

    /** The session these fields hold, as a value. */
    function State(): Session
      reads this
    {
      Session(uiState, currentWord, usedWords, userGuess)
    }

    ghost predicate Valid()
      reads this
    {
      ValidConfig(config) && Inv(config, State())
    }

    /** Construction runs `init`, which resets the game: round 1 of a new
        game with an empty guess. */
    constructor (allWords: seq<string>, maxNoOfWords: Int32, scoreIncrease: Int32)
      requires ValidConfig(Config(allWords, maxNoOfWords, scoreIncrease))
      ensures config == Config(allWords, maxNoOfWords, scoreIncrease)
      ensures Valid()
      ensures ValidDraw(config, {}, DrawOf(State()))
      ensures State() == NewGame(DrawOf(State()))
    {
      config := Config(allWords, maxNoOfWords, scoreIncrease);
      uiState := InitialUiState("");
      currentWord := "";
      usedWords := {};
      userGuess := "";
      new;
      ResetGame();
    }

    method UpdateUserGuess(guessedWord: string)
      requires Valid()
      modifies this`userGuess
      ensures Valid()
      ensures State() == GameRules.UpdateUserGuess(old(State()), guessedWord)
    {
      userGuess := guessedWord;
    }

    method CheckUserGuess()
      requires Valid()
      modifies this`uiState, this`currentWord, this`usedWords, this`userGuess
      ensures Valid()
      ensures CheckDrawOk(config, old(State()), DrawOf(State()))
      ensures State() == GameRules.CheckUserGuess(config, old(State()), DrawOf(State()))
    {
      if IgnoreCase.EqualsIgnoreCase(userGuess, currentWord) {
        var updatedScore := Plus(uiState.score, config.scoreIncrease);
        UpdateGameState(updatedScore);
      } else {
        uiState := uiState.(isGuessedWordWrong := true);
      }
      UpdateUserGuess("");
    }

    /** Ends the game after its last word; otherwise draws the next word and
        moves to the next round. Either way the score becomes
        `updatedScore` and the wrong-guess flag is cleared. */
    method UpdateGameState(updatedScore: Int32)
      requires Valid()
      modifies this`uiState, this`currentWord, this`usedWords
      ensures Valid()
      ensures AdvanceDrawOk(config, old(State()), DrawOf(State()))
      ensures State() == GameRules.UpdateGameState(config, old(State()), updatedScore, DrawOf(State()))
    {
      if |usedWords| == config.maxNoOfWords as int {
        uiState := uiState.(isGuessedWordWrong := false, score := updatedScore, isGameOver := true);
      } else {
        var currentState := uiState;
        DrawExists(config, usedWords);
        var scrambled := PickRandomWordAndShuffle();
        uiState := currentState.(
          isGuessedWordWrong := false,
          currentScrambledWord := scrambled,
          score := updatedScore,
          currentWordCount := Inc(currentState.currentWordCount));
      }
      UpdateGameStatePreservesInv(config, old(State()), updatedScore, DrawOf(State()));
    }

    /** Makes some dictionary word not shown yet the current word, records
        it as used, and returns a scramble of it. */
    method PickRandomWordAndShuffle() returns (scrambled: string)
      requires ValidConfig(config)
      requires exists d :: ValidDraw(config, usedWords, d)
      modifies this`currentWord, this`usedWords
      ensures ValidDraw(config, old(usedWords), Draw(currentWord, scrambled))
      ensures usedWords == old(usedWords) + {currentWord}
    {
      var d :| ValidDraw(config, usedWords, d);
      var word := d.word;
      currentWord := word;
      usedWords := usedWords + {currentWord};
      scrambled := ShuffleCurrentWord(currentWord);
    }

    /** Shuffles the letters of `word` until they no longer spell it. */
    method ShuffleCurrentWord(word: string) returns (shuffled: string)
      requires Scramble.Scramblable(word)
      ensures Scramble.IsScrambleOf(shuffled, word)
    {
      var tempWord := new char[|word|](i requires 0 <= i < |word| => word[i]);
      assert tempWord[..] == word;
      Scramble.Shuffle(tempWord);
      while tempWord[..] == word
        invariant Scramble.IsPermutationOf(tempWord[..], word)
        decreases if tempWord[..] == word then 1 else 0
      {
        Scramble.ShuffleAwayFrom(tempWord, word);
      }
      shuffled := tempWord[..];
    }

    /** Starts the game over from any state: no words used, round 1 with a
        freshly drawn word, the snapshot back at its defaults. */
    method ResetGame()
      requires ValidConfig(config)
      modifies this`uiState, this`currentWord, this`usedWords
      ensures Valid()
      ensures ValidDraw(config, {}, DrawOf(State()))
      ensures State() == GameRules.ResetGame(old(State()), DrawOf(State()))
    {
      usedWords := {};
      DrawExists(config, usedWords);
      var scrambled := PickRandomWordAndShuffle();
      uiState := InitialUiState(scrambled);
    }

    method SkipWord()
      requires Valid()
      modifies this`uiState, this`currentWord, this`usedWords, this`userGuess
      ensures Valid()
      ensures AdvanceDrawOk(config, old(State()), DrawOf(State()))
      ensures State() == GameRules.SkipWord(config, old(State()), DrawOf(State()))
    {
      UpdateGameState(uiState.score);
      UpdateUserGuess("");
    }
  }
}
