/** The word-unscramble game session as values: the state a `GameViewModel`
    holds, and what each of its commands does to that state. The random
    choices a command makes (which word is picked next, how it is
    shuffled) arrive as a `Draw`; `ValidDraw` says which draws the
    random source can produce. The class in module `Ui` is proved to
    follow these functions, and the lemmas below state what the functions
    promise. */
module GameRules {
  import opened KotlinInt
  import IgnoreCase
  import Scramble

  /** What the session takes from the data module: the dictionary
      `allWords` and the constants `MAX_NO_OF_WORDS` and `SCORE_INCREASE`. */
  datatype Config = Config(allWords: seq<string>, maxNoOfWords: Int32, scoreIncrease: Int32)

  /** The distinct words of the dictionary. */
  function Dictionary(cfg: Config): set<string> {
    set w | w in cfg.allWords
  }

  /** A dictionary and constants the game can be played with: at least one
      round per game, enough distinct words that every round finds an
      unused one, and no word that no shuffle can change. */
  predicate ValidConfig(cfg: Config) {
    1 <= cfg.maxNoOfWords
    && cfg.maxNoOfWords as int <= |Dictionary(cfg)|
    && forall w :: w in cfg.allWords ==> Scramble.Scramblable(w)
  }

  /** The snapshot the screen observes. */
  datatype GameUiState = GameUiState(
    currentScrambledWord: string,
    currentWordCount: Int32,
    score: Int32,
    isGuessedWordWrong: bool,
    isGameOver: bool)

  /** `GameUiState(currentScrambledWord = scrambled)`: round 1, no points,
      no wrong guess, game not over. */
  function InitialUiState(scrambled: string): GameUiState {
    GameUiState(scrambled, 1, 0, false, false)
  }

  /** The whole state of a `GameViewModel`: the snapshot `_uiState` holds,
      the hidden word, the words used so far and the pending guess. */
  datatype Session = Session(
    uiState: GameUiState,
    currentWord: string,
    usedWords: set<string>,
    userGuess: string)

  /** One outcome of the random source: the word picked and the
      arrangement its shuffle produced. */
  datatype Draw = Draw(word: string, scrambled: string)

  /** The draws `pickRandomWordAndShuffle` can produce when `used` holds
      the words already played: a dictionary word not played yet, and a
      scramble of it. */
  predicate ValidDraw(cfg: Config, used: set<string>, d: Draw) {
    d.word in cfg.allWords
    && d.word !in used
    && Scramble.IsScrambleOf(d.scrambled, d.word)
  }

  /** The draw that the state `s` shows: its word and its scramble. */
  function DrawOf(s: Session): Draw {
    Draw(s.currentWord, s.uiState.currentScrambledWord)
  }

  /** Every word of the game has been played. */
  predicate AllWordsPlayed(cfg: Config, s: Session) {
    |s.usedWords| == cfg.maxNoOfWords as int
  }

  /** The pending guess matches the hidden word, ignoring case. */
  predicate IsCorrectGuess(s: Session) {
    IgnoreCase.EqualsIgnoreCase(s.userGuess, s.currentWord)
  }

  /** What holds of a session between commands: the words played are
      dictionary words, one per round so far and never more than the game
      has; the hidden word is among them and the screen shows a scramble
      of it; the game is over only once every word has been played. */
  predicate Inv(cfg: Config, s: Session) {
    s.usedWords <= Dictionary(cfg)
    && s.currentWord in s.usedWords
    && |s.usedWords| == s.uiState.currentWordCount as int
    && 1 <= |s.usedWords| <= cfg.maxNoOfWords as int
    && (s.uiState.isGameOver ==> AllWordsPlayed(cfg, s))
    && Scramble.IsScrambleOf(s.uiState.currentScrambledWord, s.currentWord)
  }

  // ---------------------------------------------------------------------
  // The commands

  /** `updateUserGuess`. */
  function UpdateUserGuess(s: Session, guessedWord: string): Session {
    s.(userGuess := guessedWord)
  }

  /** `updateGameState(updatedScore)`: after the last word the game ends
      and nothing is drawn; otherwise the draw `d` becomes the next round. */
  function UpdateGameState(cfg: Config, s: Session, updatedScore: Int32, d: Draw): Session {
    if AllWordsPlayed(cfg, s) then
      s.(uiState := s.uiState.(isGuessedWordWrong := false, score := updatedScore, isGameOver := true))
    else
      s.(currentWord := d.word,
         usedWords := s.usedWords + {d.word},
         uiState := s.uiState.(
           isGuessedWordWrong := false,
           currentScrambledWord := d.scrambled,
           score := updatedScore,
           currentWordCount := Inc(s.uiState.currentWordCount)))
  }

  /** `checkUserGuess`: a correct guess scores and advances (drawing `d`
      if a word is needed), a wrong one raises the flag; either way the
      guess is consumed. */
  function CheckUserGuess(cfg: Config, s: Session, d: Draw): Session {
    var next :=
      if IsCorrectGuess(s) then UpdateGameState(cfg, s, Plus(s.uiState.score, cfg.scoreIncrease), d)
      else s.(uiState := s.uiState.(isGuessedWordWrong := true));
    UpdateUserGuess(next, "")
  }

  /** `skipWord`: advances with the score as it is, then consumes the
      guess. */
  function SkipWord(cfg: Config, s: Session, d: Draw): Session {
    UpdateUserGuess(UpdateGameState(cfg, s, s.uiState.score, d), "")
  }

  /** `resetGame`: forgets the words played and starts over at round 1
      with the word of `d`. The pending guess is left as it was. */
  function ResetGame(s: Session, d: Draw): Session {
    Session(InitialUiState(d.scrambled), d.word, {d.word}, s.userGuess)
  }

  /** A new `GameViewModel`: empty guess and no words played, then
      `resetGame` from its `init` block. */
  function NewGame(d: Draw): Session {
    ResetGame(Session(InitialUiState(""), "", {}, ""), d)
  }

  /** The draw a command needs, when it needs one, is one the random source
      can produce. */
  predicate AdvanceDrawOk(cfg: Config, s: Session, d: Draw) {
    AllWordsPlayed(cfg, s) || ValidDraw(cfg, s.usedWords, d)
  }

  predicate CheckDrawOk(cfg: Config, s: Session, d: Draw) {
    IsCorrectGuess(s) ==> AdvanceDrawOk(cfg, s, d)
  }

  // ---------------------------------------------------------------------
  // Drawing is always possible

  /** While some round is still to be played, the dictionary has a word not
      played yet, and it has a scramble: the draws the session needs exist. */
  lemma DrawExists(cfg: Config, used: set<string>)
    requires ValidConfig(cfg)
    requires used <= Dictionary(cfg)
    requires |used| < cfg.maxNoOfWords as int
    ensures exists d :: ValidDraw(cfg, used, d)
  {
    var unused := Dictionary(cfg) - used;
    assert |Dictionary(cfg)| == |used| + |unused| by {
      assert Dictionary(cfg) == used + unused;
    }
    var w :| w in unused;
    Scramble.ScrambleExists(w);
    var sc :| Scramble.IsScrambleOf(sc, w);
    assert ValidDraw(cfg, used, Draw(w, sc));
  }

  // ---------------------------------------------------------------------
  // Advancing a round

  /** When every word has been played, advancing ends the game: the flag is
      cleared, the score taken, and neither the word, its scramble, the
      round count nor the words played change. */
  lemma LastRoundEndsGame(cfg: Config, s: Session, updatedScore: Int32, d: Draw)
    requires AllWordsPlayed(cfg, s)
    ensures var r := UpdateGameState(cfg, s, updatedScore, d);
      r.uiState.isGameOver
      && !r.uiState.isGuessedWordWrong
      && r.uiState.score == updatedScore
      && r.uiState.currentScrambledWord == s.uiState.currentScrambledWord
      && r.uiState.currentWordCount == s.uiState.currentWordCount
      && r.currentWord == s.currentWord
      && r.usedWords == s.usedWords
      && r.userGuess == s.userGuess
  {
  }

  /** Otherwise advancing starts the next round: one more round, exactly
      one more word played, a word not played before, shown scrambled. */
  lemma NextRoundDrawsNewWord(cfg: Config, s: Session, updatedScore: Int32, d: Draw)
    requires Inv(cfg, s)
    requires !AllWordsPlayed(cfg, s)
    requires ValidDraw(cfg, s.usedWords, d)
    ensures var r := UpdateGameState(cfg, s, updatedScore, d);
      r.uiState.currentWordCount as int == s.uiState.currentWordCount as int + 1
      && r.currentWord !in s.usedWords
      && r.usedWords == s.usedWords + {r.currentWord}
      && |r.usedWords| == |s.usedWords| + 1
      && Scramble.IsScrambleOf(r.uiState.currentScrambledWord, r.currentWord)
      && r.uiState.score == updatedScore
      && !r.uiState.isGuessedWordWrong
      && !r.uiState.isGameOver
      && r.userGuess == s.userGuess
  {
    assert s.uiState.currentWordCount as int < MAX_VALUE;
  }

  /** Advancing keeps the session invariant: in particular the number of
      words played stays equal to the round count, and no word repeats. */
  lemma UpdateGameStatePreservesInv(cfg: Config, s: Session, updatedScore: Int32, d: Draw)
    requires Inv(cfg, s)
    requires AdvanceDrawOk(cfg, s, d)
    ensures Inv(cfg, UpdateGameState(cfg, s, updatedScore, d))
  {
    if !AllWordsPlayed(cfg, s) {
      NextRoundDrawsNewWord(cfg, s, updatedScore, d);
    }
  }

  // ---------------------------------------------------------------------
  // Guessing and skipping

  /** A correct guess adds `SCORE_INCREASE` (exactly, unless the `Int`
      overflows) and then advances as `updateGameState` does. */
  lemma CorrectGuessScores(cfg: Config, s: Session, d: Draw)
    requires IsCorrectGuess(s)
    ensures var r := CheckUserGuess(cfg, s, d);
      r.uiState.score == Plus(s.uiState.score, cfg.scoreIncrease)
      && (MIN_VALUE <= s.uiState.score as int + cfg.scoreIncrease as int <= MAX_VALUE ==>
            r.uiState.score as int == s.uiState.score as int + cfg.scoreIncrease as int)
      && !r.uiState.isGuessedWordWrong
      && r == UpdateGameState(cfg, s, r.uiState.score, d).(userGuess := "")
  {
  }

  /** A wrong guess only raises the flag: score, round count, scramble,
      game-over flag, hidden word and words played stay as they were. */
  lemma WrongGuessOnlyFlags(cfg: Config, s: Session, d: Draw)
    requires !IsCorrectGuess(s)
    ensures var r := CheckUserGuess(cfg, s, d);
      r.uiState.isGuessedWordWrong
      && r.uiState.score == s.uiState.score
      && r.uiState.currentWordCount == s.uiState.currentWordCount
      && r.uiState.currentScrambledWord == s.uiState.currentScrambledWord
      && r.uiState.isGameOver == s.uiState.isGameOver
      && r.currentWord == s.currentWord
      && r.usedWords == s.usedWords
  {
  }

  /** Guessing and skipping both consume the pending guess. */
  lemma GuessIsConsumed(cfg: Config, s: Session, d: Draw)
    ensures CheckUserGuess(cfg, s, d).userGuess == ""
    ensures SkipWord(cfg, s, d).userGuess == ""
  {
  }

  /** Skipping never changes the score, and otherwise advances exactly as
      a correct guess does. */
  lemma SkipKeepsScore(cfg: Config, s: Session, d: Draw)
    ensures var r := SkipWord(cfg, s, d);
      r.uiState.score == s.uiState.score
      && r == UpdateGameState(cfg, s, s.uiState.score, d).(userGuess := "")
  {
  }

  /** Skipping and guessing correctly lead to the same state except for the
      score. */
  lemma SkipAndCorrectGuessDifferOnlyInScore(cfg: Config, s: Session, d: Draw)
    requires IsCorrectGuess(s)
    ensures var g := CheckUserGuess(cfg, s, d);
      var k := SkipWord(cfg, s, d);
      g.(uiState := g.uiState.(score := k.uiState.score)) == k
  {
  }

  /** The commands keep the session invariant, given the draws the random
      source can produce. */
  lemma CheckUserGuessPreservesInv(cfg: Config, s: Session, d: Draw)
    requires Inv(cfg, s)
    requires CheckDrawOk(cfg, s, d)
    ensures Inv(cfg, CheckUserGuess(cfg, s, d))
  {
    if IsCorrectGuess(s) {
      UpdateGameStatePreservesInv(cfg, s, Plus(s.uiState.score, cfg.scoreIncrease), d);
    }
  }

  lemma SkipWordPreservesInv(cfg: Config, s: Session, d: Draw)
    requires Inv(cfg, s)
    requires AdvanceDrawOk(cfg, s, d)
    ensures Inv(cfg, SkipWord(cfg, s, d))
  {
    UpdateGameStatePreservesInv(cfg, s, s.uiState.score, d);
  }

  lemma UpdateUserGuessPreservesInv(cfg: Config, s: Session, guessedWord: string)
    requires Inv(cfg, s)
    ensures Inv(cfg, UpdateUserGuess(s, guessedWord))
  {
  }

  // ---------------------------------------------------------------------
  // Game over

  /** Once over, the game stays over: guessing and skipping leave the round,
      the word, its scramble and the words played alone. A correct guess
      still adds to the score, since nothing guards against it. */
  lemma GameOverIsFinal(cfg: Config, s: Session, d: Draw)
    requires Inv(cfg, s)
    requires s.uiState.isGameOver
    ensures var r := CheckUserGuess(cfg, s, d);
      r.uiState.isGameOver
      && r.uiState.currentWordCount == s.uiState.currentWordCount
      && r.uiState.currentScrambledWord == s.uiState.currentScrambledWord
      && r.currentWord == s.currentWord
      && r.usedWords == s.usedWords
      && (IsCorrectGuess(s) ==> r.uiState.score == Plus(s.uiState.score, cfg.scoreIncrease))
    ensures var r := SkipWord(cfg, s, d);
      r.uiState.isGameOver
      && r.uiState.score == s.uiState.score
      && r.uiState.currentWordCount == s.uiState.currentWordCount
      && r.uiState.currentScrambledWord == s.uiState.currentScrambledWord
      && r.currentWord == s.currentWord
      && r.usedWords == s.usedWords
  {
  }

  /** Correct guesses after the game is over keep adding the increase, and
      `Int.plus` can wrap the score below zero. */
  lemma ScoreWrapsAfterGameOver(cfg: Config, s: Session, d: Draw)
    requires Inv(cfg, s)
    requires s.uiState.isGameOver
    requires IsCorrectGuess(s)
    requires s.uiState.score as int == MAX_VALUE
    requires 0 < cfg.scoreIncrease
    ensures CheckUserGuess(cfg, s, d).uiState.score < 0
    ensures CheckUserGuess(cfg, s, d).uiState.isGameOver
  {
  }

  /** Under the invariant, the round counter and the number of words played
      agree, so testing either against `MAX_NO_OF_WORDS` to end the game
      gives the same answer; when the game is over both equal it. */
  lemma RoundCountMatchesWordsPlayed(cfg: Config, s: Session)
    requires Inv(cfg, s)
    ensures AllWordsPlayed(cfg, s) <==> s.uiState.currentWordCount == cfg.maxNoOfWords
    ensures s.uiState.isGameOver ==>
      |s.usedWords| == s.uiState.currentWordCount as int == cfg.maxNoOfWords as int
  {
  }

  // ---------------------------------------------------------------------
  // Reset

  /** Resetting starts round 1 afresh: one word played, the new hidden word,
      shown scrambled, no points, no wrong guess, game not over. */
  lemma ResetGameStartsOver(cfg: Config, s: Session, d: Draw)
    requires ValidDraw(cfg, {}, d)
    ensures var r := ResetGame(s, d);
      r.usedWords == {r.currentWord}
      && r.currentWord == d.word
      && r.uiState == InitialUiState(d.scrambled)
      && r.uiState.score == 0
      && r.uiState.currentWordCount == 1
      && !r.uiState.isGameOver
      && !r.uiState.isGuessedWordWrong
      && Scramble.IsScrambleOf(r.uiState.currentScrambledWord, r.currentWord)
      && r.userGuess == s.userGuess
  {
  }

  /** Resetting, from any state at all, establishes the invariant. */
  lemma ResetGameEstablishesInv(cfg: Config, s: Session, d: Draw)
    requires ValidConfig(cfg)
    requires ValidDraw(cfg, {}, d)
    ensures Inv(cfg, ResetGame(s, d))
  {
  }

  // ---------------------------------------------------------------------
  // Sequences of commands

  /** The commands the screen sends to the session. */
  datatype Command = UpdateGuess(text: string) | CheckGuess | Skip | Reset

  /** One command, given the draw it makes if it needs one. */
  function Step(cfg: Config, s: Session, c: Command, d: Draw): Session {
    match c
    case UpdateGuess(text) => UpdateUserGuess(s, text)
    case CheckGuess => CheckUserGuess(cfg, s, d)
    case Skip => SkipWord(cfg, s, d)
    case Reset => ResetGame(s, d)
  }

  /** The draw of one command is one the random source can produce. */
  predicate StepDrawOk(cfg: Config, s: Session, c: Command, d: Draw) {
    match c
    case UpdateGuess(_) => true
    case CheckGuess => CheckDrawOk(cfg, s, d)
    case Skip => AdvanceDrawOk(cfg, s, d)
    case Reset => ValidDraw(cfg, {}, d)
  }

  /** The commands in order, the i-th drawing `draws[i]`. */
  function Run(cfg: Config, s: Session, cmds: seq<Command>, draws: seq<Draw>): Session
    requires |draws| == |cmds|
    decreases |cmds|
  {
    if cmds == [] then s
    else Run(cfg, Step(cfg, s, cmds[0], draws[0]), cmds[1..], draws[1..])
  }

  /** Every draw of the run is one the random source can produce. */
  predicate RunDrawsOk(cfg: Config, s: Session, cmds: seq<Command>, draws: seq<Draw>)
    requires |draws| == |cmds|
    decreases |cmds|
  {
    cmds == []
    || (StepDrawOk(cfg, s, cmds[0], draws[0])
        && RunDrawsOk(cfg, Step(cfg, s, cmds[0], draws[0]), cmds[1..], draws[1..]))
  }

  /** No command ever waits for a draw the random source cannot produce:
      whatever the state and the command, a suitable draw exists. */
  lemma StepDrawExists(cfg: Config, s: Session, c: Command)
    requires ValidConfig(cfg)
    requires Inv(cfg, s)
    ensures exists d :: StepDrawOk(cfg, s, c, d)
  {
    if c.Reset? {
      DrawExists(cfg, {});
      var d :| ValidDraw(cfg, {}, d);
      assert StepDrawOk(cfg, s, c, d);
    } else if AllWordsPlayed(cfg, s) {
      assert StepDrawOk(cfg, s, c, DrawOf(s));
    } else {
      DrawExists(cfg, s.usedWords);
      var d :| ValidDraw(cfg, s.usedWords, d);
      assert StepDrawOk(cfg, s, c, d);
    }
  }

  /** Every command keeps the invariant. */
  lemma StepPreservesInv(cfg: Config, s: Session, c: Command, d: Draw)
    requires ValidConfig(cfg)
    requires Inv(cfg, s)
    requires StepDrawOk(cfg, s, c, d)
    ensures Inv(cfg, Step(cfg, s, c, d))
  {
    match c
    case UpdateGuess(text) => UpdateUserGuessPreservesInv(cfg, s, text);
    case CheckGuess => CheckUserGuessPreservesInv(cfg, s, d);
    case Skip => SkipWordPreservesInv(cfg, s, d);
    case Reset => ResetGameEstablishesInv(cfg, s, d);
  }

  /** However a game is played from a new `GameViewModel`: the words shown
      are distinct dictionary words, as many as rounds so far, never more
      than `MAX_NO_OF_WORDS`, and all of them once the game is over. */
  lemma {:induction false} GameKeepsInvariant(cfg: Config, d: Draw, cmds: seq<Command>, draws: seq<Draw>)
    requires ValidConfig(cfg)
    requires ValidDraw(cfg, {}, d)
    requires |draws| == |cmds|
    requires RunDrawsOk(cfg, NewGame(d), cmds, draws)
    ensures var r := Run(cfg, NewGame(d), cmds, draws);
      r.usedWords <= Dictionary(cfg)
      && |r.usedWords| == r.uiState.currentWordCount as int <= cfg.maxNoOfWords as int
      && (r.uiState.isGameOver ==> |r.usedWords| == cfg.maxNoOfWords as int)
      && Scramble.IsScrambleOf(r.uiState.currentScrambledWord, r.currentWord)
  {
    ResetGameEstablishesInv(cfg, Session(InitialUiState(""), "", {}, ""), d);
    RunPreservesInv(cfg, NewGame(d), cmds, draws);
  }

  lemma {:induction false} RunPreservesInv(cfg: Config, s: Session, cmds: seq<Command>, draws: seq<Draw>)
    requires ValidConfig(cfg)
    requires Inv(cfg, s)
    requires |draws| == |cmds|
    requires RunDrawsOk(cfg, s, cmds, draws)
    ensures Inv(cfg, Run(cfg, s, cmds, draws))
    decreases |cmds|
  {
    if cmds != [] {
      StepPreservesInv(cfg, s, cmds[0], draws[0]);
      RunPreservesInv(cfg, Step(cfg, s, cmds[0], draws[0]), cmds[1..], draws[1..]);
    }
  }

  // ---------------------------------------------------------------------
  // A whole game

  /** Two rounds of 20 points each over the words "cat" and "dog": after the
      first correct guess the score is 20 in round 2, after the second it is
      40 and the game is over, with the round and scramble of round 2. While
      round 2 is open both words have been played, yet the game is not over:
      it ends only when the last word is answered or skipped. */
  lemma TwoRoundGame()
    ensures var cfg := Config(["cat", "dog"], 2, 20);
      var s0 := NewGame(Draw("cat", "tac"));
      var s1 := CheckUserGuess(cfg, UpdateUserGuess(s0, "CAT"), Draw("dog", "odg"));
      var s2 := CheckUserGuess(cfg, UpdateUserGuess(s1, "dog"), Draw("", ""));
      s0.uiState.score == 0 && s0.uiState.currentWordCount == 1
      && s1.uiState.score == 20 && s1.uiState.currentWordCount == 2 && !s1.uiState.isGameOver
      && AllWordsPlayed(cfg, s1)
      && s2.uiState.score == 40 && s2.uiState.isGameOver
      && s2.uiState.currentWordCount == 2 && s2.uiState.currentScrambledWord == "odg"
  {
    var cfg := Config(["cat", "dog"], 2, 20);
    var s0 := NewGame(Draw("cat", "tac"));
    var g0 := UpdateUserGuess(s0, "CAT");
    assert IsCorrectGuess(g0) by {
      assert IgnoreCase.CharEqualsIgnoreCase('C', 'c');
      assert IgnoreCase.CharEqualsIgnoreCase('A', 'a');
      assert IgnoreCase.CharEqualsIgnoreCase('T', 't');
    }
    assert !AllWordsPlayed(cfg, g0) by {
      assert |{"cat"}| == 1;
    }
    var s1 := CheckUserGuess(cfg, g0, Draw("dog", "odg"));
    assert s1.usedWords == {"cat", "dog"};
    var g1 := UpdateUserGuess(s1, "dog");
    assert IsCorrectGuess(g1);
    assert AllWordsPlayed(cfg, g1) by {
      assert |{"cat", "dog"}| == 2;
    }
  }

  /** A wrong guess leaves score and round alone and raises the flag; after
      the guess is typed again correctly, the round advances normally. */
  lemma WrongThenCorrectGuess()
    ensures var cfg := Config(["cat", "dog"], 2, 20);
      var s0 := NewGame(Draw("cat", "tac"));
      var s1 := CheckUserGuess(cfg, UpdateUserGuess(s0, "cot"), Draw("dog", "odg"));
      var s2 := CheckUserGuess(cfg, UpdateUserGuess(UpdateUserGuess(s1, ""), "cat"), Draw("dog", "odg"));
      s1.uiState.isGuessedWordWrong && s1.uiState.score == 0 && s1.uiState.currentWordCount == 1
      && !s2.uiState.isGuessedWordWrong && s2.uiState.score == 20 && s2.uiState.currentWordCount == 2
  {
    var cfg := Config(["cat", "dog"], 2, 20);
    var s0 := NewGame(Draw("cat", "tac"));
    var g0 := UpdateUserGuess(s0, "cot");
    assert !IsCorrectGuess(g0) by {
      assert !IgnoreCase.CharEqualsIgnoreCase(g0.userGuess[1], g0.currentWord[1]);
    }
    var s1 := CheckUserGuess(cfg, g0, Draw("dog", "odg"));
    var g1 := UpdateUserGuess(UpdateUserGuess(s1, ""), "cat");
    assert IsCorrectGuess(g1);
    assert !AllWordsPlayed(cfg, g1) by {
      assert |{"cat"}| == 1;
    }
  }
}
