/**
  The Unscramble game's state holder. It keeps a hidden current word, the set of
  words already shown in this session, the player's pending guess and the screen
  state. A correct guess scores and moves on to a fresh word; a wrong guess only
  raises the error flag.

  The word list and the points per correct guess come from outside the model and
  are given to the constructor. Randomness is an oracle: `draws` are the results of
  successive `allWords.random()` calls (draw d picks `allWords[d % |allWords|]`), and
  `rounds` are the draws of successive `shuffle()` calls (see module Shuffling).
 */
module Game {
  import opened Int32
  import opened Text
  import opened Shuffling
  import opened UiState

  /** The word `allWords.random()` yields for draw d. */
  function Drawn(words: seq<string>, d: nat): (w: string)
    requires |words| > 0
    ensures w in words
  {
    words[d % |words|]
  }

  /** Some draw lands on a word outside `used`: what the retry recursion needs to stop. */
  predicate DrawsReachUnused(words: seq<string>, used: set<string>, draws: seq<nat>)
  {
    |words| > 0 && exists k :: 0 <= k < |draws| && Drawn(words, draws[k]) !in used
  }

  /** The word the retry recursion settles on: the first draw outside `used`. */
  function PickedWord(words: seq<string>, used: set<string>, draws: seq<nat>): (w: string)
    requires DrawsReachUnused(words, used, draws)
    ensures w in words && w !in used
    decreases |draws|
  {
    if Drawn(words, draws[0]) !in used then Drawn(words, draws[0])
    else
      assert DrawsReachUnused(words, used, draws[1..]) by {
        var k :| 0 <= k < |draws| && Drawn(words, draws[k]) !in used;
        assert draws[1..][k - 1] == draws[k];
      }
      PickedWord(words, used, draws[1..])
  }

  /** Some shuffle round moves the word away from itself: what the retry loop needs to stop. */
  predicate Scramblable(word: string, rounds: seq<seq<nat>>)
  {
    (forall r :: 0 <= r < |rounds| ==> |rounds[r]| == |word|) &&
    exists r :: 0 <= r < |rounds| && |rounds[r]| == |word| && Shuffled(word, rounds[r]) != word
  }

  /** `s` is what the screen may show for `word`: its letters rearranged, never the word itself. */
  predicate IsScrambleOf(s: string, word: string)
  {
    multiset(s) == multiset(word) && s != word
  }

  /** The scramble the retry loop returns: the first round whose shuffle differs from the word. */
  function Scrambled(word: string, rounds: seq<seq<nat>>): (s: string)
    requires Scramblable(word, rounds)
    ensures IsScrambleOf(s, word)
    ensures |s| == |word|
    decreases |rounds|
  {
    ShuffledIsPermutation(word, rounds[0]);
    if Shuffled(word, rounds[0]) != word then Shuffled(word, rounds[0])
    else
      assert Scramblable(word, rounds[1..]) by {
        var r :| 0 <= r < |rounds| && |rounds[r]| == |word| && Shuffled(word, rounds[r]) != word;
        assert rounds[1..][r - 1] == rounds[r];
      }
      Scrambled(word, rounds[1..])
  }

  /** Unfolding of `Scrambled` for the shuffle loop's proof: a round that leaves the word as it was is skipped. */
  lemma ScrambledSkipsIdentity(word: string, rounds: seq<seq<nat>>, k: nat)
    requires k < |rounds| && Scramblable(word, rounds[k..])
    requires Shuffled(word, rounds[k]) == word
    ensures k + 1 < |rounds| && Scramblable(word, rounds[k + 1..])
    ensures Scrambled(word, rounds[k..]) == Scrambled(word, rounds[k + 1..])
  {
    assert rounds[k..][0] == rounds[k];
    assert rounds[k..][1..] == rounds[k + 1..];
  }

  /** Unfolding of `Scrambled` for the shuffle loop's proof: the first round that moves the word gives the scramble. */
  lemma ScrambledTakesFirstMove(word: string, rounds: seq<seq<nat>>, k: nat)
    requires k < |rounds| && Scramblable(word, rounds[k..])
    requires Shuffled(word, rounds[k]) != word
    ensures Scrambled(word, rounds[k..]) == Shuffled(word, rounds[k])
  {
    assert rounds[k..][0] == rounds[k];
  }

  /** The scramble can be asked for exactly when the word has two different characters. */
  lemma ScramblableIffTwoDistinct(word: string)
    ensures (exists rounds :: Scramblable(word, rounds)) <==> TwoDistinct(word)
  {
    if exists rounds :: Scramblable(word, rounds) {
      var rounds :| Scramblable(word, rounds);
      var r :| 0 <= r < |rounds| && |rounds[r]| == |word| && Shuffled(word, rounds[r]) != word;
      ShuffleMovesOnlyTwoDistinct(word, rounds[r]);
    }
    if TwoDistinct(word) {
      ShuffleCanMove(word);
      var draws :| |draws| == |word| && Shuffled(word, draws) != word;
      var rounds := [draws];
      assert rounds[0] == draws;
      assert forall r :: 0 <= r < |rounds| ==> rounds[r] == draws;
      assert Scramblable(word, rounds);
    }
  }

  /** No element appears twice. */
  predicate Distinct(s: seq<string>)
  {
    forall i, j :: 0 <= i < j < |s| ==> s[i] != s[j]
  }

  function Elements(s: seq<string>): set<string>
  {
    set w | w in s
  }

  /** A word list with no repeats is at most as long as the list it is drawn from. */
  lemma {:induction false} DistinctWithin(s: seq<string>, pool: seq<string>)
    requires Distinct(s)
    requires forall w :: w in s ==> w in pool
    ensures |s| <= |pool|
  {
    DistinctCard(s);
    CardAtMostLength(pool);
    assert Elements(s) <= Elements(pool);
    SubsetCard(Elements(s), Elements(pool));
  }

  lemma {:induction false} DistinctCard(s: seq<string>)
    requires Distinct(s)
    ensures |Elements(s)| == |s|
  {
    if s != [] {
      var t := s[..|s| - 1];
      assert Distinct(t);
      DistinctCard(t);
      assert Elements(s) == Elements(t) + {s[|s| - 1]};
      assert s[|s| - 1] !in Elements(t);
    }
  }

  lemma {:induction false} CardAtMostLength(s: seq<string>)
    ensures |Elements(s)| <= |s|
  {
    if s != [] {
      var t := s[..|s| - 1];
      CardAtMostLength(t);
      assert Elements(s) == Elements(t) + {s[|s| - 1]};
    }
  }

  lemma SubsetCard(a: set<string>, b: set<string>)
    requires a <= b
    ensures |a| <= |b|
  {
    assert b == a + (b - a);
  }

  class GameViewModel {
    const allWords: seq<string>
    const scoreIncrease: int32

    /** `_uiState.value`: the state the screen observes. */
    var uiState: GameUiState
    /** The unscrambled answer; never shown. */
    var currentWord: string
    var usedWords: set<string>
    var userGuess: string

    /** The words shown in this session, in order. */
    ghost var presented: seq<string>

    /**
      The object invariant: the current word is the last word shown, no word has been
      shown twice, every shown word is from the list and is in `usedWords`, the screen
      shows a true scramble of the current word, and the score is one `scoreIncrease`
      (in 32-bit arithmetic) per word solved, that is, per word shown after the first.
     */
    ghost predicate Valid()
      reads this`presented, this`currentWord, this`usedWords, this`uiState
    {
      presented != [] &&
      currentWord == presented[|presented| - 1] &&
      Distinct(presented) &&
      (forall w :: w in presented ==> w in allWords) &&
      usedWords == Elements(presented) &&
      IsScrambleOf(uiState.currentScrambledWord, currentWord) &&
      uiState.score == Wrap((|presented| - 1) * scoreIncrease)
    }

    /** The view model as created: empty history, then `resetGame` from `init`. */
    constructor (allWords: seq<string>, scoreIncrease: int32, draws: seq<nat>, rounds: seq<seq<nat>>)
      requires DrawsReachUnused(allWords, {}, draws)
      requires Scramblable(PickedWord(allWords, {}, draws), rounds)
      ensures Valid()
      ensures this.allWords == allWords && this.scoreIncrease == scoreIncrease
      ensures currentWord == PickedWord(allWords, {}, draws)
      ensures usedWords == {currentWord} && presented == [currentWord]
      ensures uiState == GameUiState(currentScrambledWord := Scrambled(currentWord, rounds))
      ensures userGuess == ""
    {
      this.allWords := allWords;
      this.scoreIncrease := scoreIncrease;
      uiState := GameUiState();
      currentWord := "";
      usedWords := {};
      userGuess := "";
      presented := [];
      new;
      ResetGame(draws, rounds);
    }

    /** Records what the player has typed; nothing else changes. */
    method UpdateUserGuess(guessWord: string)
      modifies this`userGuess
      ensures userGuess == guessWord
    {
      userGuess := guessWord;
    }

    /**
      Compares the pending guess with the current word, ignoring case. A match adds
      `scoreIncrease` to the score, clears the error flag and moves to a word not
      shown before; a miss sets the error flag and changes nothing else. Either way the
      pending guess is cleared. The draws matter only on a match.
     */
    method CheckUserGuess(draws: seq<nat>, rounds: seq<seq<nat>>)
      requires Valid()
      requires EqualsIgnoreCase(userGuess, currentWord) ==>
        DrawsReachUnused(allWords, usedWords, draws) &&
        Scramblable(PickedWord(allWords, usedWords, draws), rounds)
      modifies this`uiState, this`currentWord, this`usedWords, this`userGuess, this`presented
      ensures Valid()
      ensures userGuess == ""
      ensures EqualsIgnoreCase(old(userGuess), old(currentWord)) ==>
        uiState.score == Plus(old(uiState.score), scoreIncrease) &&
        !uiState.isGuessWordWrong &&
        currentWord == PickedWord(allWords, old(usedWords), draws) &&
        currentWord !in old(usedWords) &&
        usedWords == old(usedWords) + {currentWord} &&
        presented == old(presented) + [currentWord] &&
        uiState.currentScrambledWord == Scrambled(currentWord, rounds)
      ensures !EqualsIgnoreCase(old(userGuess), old(currentWord)) ==>
        uiState == old(uiState).(isGuessWordWrong := true) &&
        currentWord == old(currentWord) &&
        usedWords == old(usedWords) &&
        presented == old(presented)
    {
      if EqualsIgnoreCase(userGuess, currentWord) {
        var updatedScore := Plus(uiState.score, scoreIncrease);
        ghost var solved := |presented| - 1;
        UpdateGameState(updatedScore, draws, rounds);
        PlusCounts(solved, scoreIncrease);
        assert |presented| - 1 == solved + 1;
        assert Distinct(presented) by {
          assert presented[|presented| - 1] !in Elements(old(presented));
        }
      } else {
        uiState := uiState.(isGuessWordWrong := true);
      }
      UpdateUserGuess("");
    }

    /**
      Starts a new session: forgets the words shown, picks and scrambles a fresh word,
      and shows it with a zero score and no error.
     */
    method ResetGame(draws: seq<nat>, rounds: seq<seq<nat>>)
      requires DrawsReachUnused(allWords, {}, draws)
      requires Scramblable(PickedWord(allWords, {}, draws), rounds)
      modifies this`uiState, this`currentWord, this`usedWords, this`presented
      ensures Valid()
      ensures currentWord == PickedWord(allWords, {}, draws)
      ensures usedWords == {currentWord} && presented == [currentWord]
      ensures uiState == GameUiState(currentScrambledWord := Scrambled(currentWord, rounds))
    {
      usedWords := {};
      presented := [];
      var scrambled := PickRandomWordAndShuffle(draws, rounds);
      uiState := GameUiState(currentScrambledWord := scrambled);
      assert Elements(presented) == {currentWord};
      assert (|presented| - 1) * scoreIncrease == 0;
    }

    /**
      Draws words until one has not been shown in this session, records it as the
      current word and as used, and returns its scramble. Each failed draw still
      overwrites the current word, as the Kotlin recursion does.
     */
    method PickRandomWordAndShuffle(draws: seq<nat>, rounds: seq<seq<nat>>) returns (scrambled: string)
      requires DrawsReachUnused(allWords, usedWords, draws)
      requires Scramblable(PickedWord(allWords, usedWords, draws), rounds)
      modifies this`currentWord, this`usedWords, this`presented
      ensures currentWord == PickedWord(allWords, old(usedWords), draws)
      ensures currentWord !in old(usedWords)
      ensures usedWords == old(usedWords) + {currentWord}
      ensures presented == old(presented) + [currentWord]
      ensures scrambled == Scrambled(currentWord, rounds)
      decreases |draws|
    {
      currentWord := Drawn(allWords, draws[0]);
      if currentWord in usedWords {
        scrambled := PickRandomWordAndShuffle(draws[1..], rounds);
      } else {
        usedWords := usedWords + {currentWord};
        presented := presented + [currentWord];
        scrambled := ShuffleCurrentWord(currentWord, rounds);
      }
    }

    /**
      Shuffles the word's characters, and shuffles again while the result still reads
      as the word: the answer has its letters rearranged and is never the word itself.
     */
    method ShuffleCurrentWord(word: string, rounds: seq<seq<nat>>) returns (scrambled: string)
      requires Scramblable(word, rounds)
      ensures IsScrambleOf(scrambled, word)
      ensures scrambled == Scrambled(word, rounds)
    {
      var tempWord := new char[|word|](i requires 0 <= i < |word| => word[i]);
      assert tempWord[..] == word;
      Shuffle(tempWord, rounds[0]);
      var k := 1;
      while tempWord[..] == word
        invariant 1 <= k <= |rounds|
        invariant tempWord.Length == |word|
        invariant Scramblable(word, rounds[k - 1..])
        invariant Scrambled(word, rounds) == Scrambled(word, rounds[k - 1..])
        invariant tempWord[..] == Shuffled(word, rounds[k - 1])
        decreases |rounds| - k
      {
        ScrambledSkipsIdentity(word, rounds, k - 1);
        Shuffle(tempWord, rounds[k]);
        k := k + 1;
      }
      ScrambledTakesFirstMove(word, rounds, k - 1);
      scrambled := tempWord[..];
    }

    /** Shows the next word: a fresh scramble, no error, and the given score. */
    method UpdateGameState(updatedScore: int32, draws: seq<nat>, rounds: seq<seq<nat>>)
      requires DrawsReachUnused(allWords, usedWords, draws)
      requires Scramblable(PickedWord(allWords, usedWords, draws), rounds)
      modifies this`uiState, this`currentWord, this`usedWords, this`presented
      ensures currentWord == PickedWord(allWords, old(usedWords), draws)
      ensures usedWords == old(usedWords) + {currentWord}
      ensures presented == old(presented) + [currentWord]
      ensures uiState == old(uiState).(
        isGuessWordWrong := false,
        currentScrambledWord := Scrambled(currentWord, rounds),
        score := updatedScore)
    {
      var currentState := uiState;
      var scrambled := PickRandomWordAndShuffle(draws, rounds);
      uiState := currentState.(
        isGuessWordWrong := false,
        currentScrambledWord := scrambled,
        score := updatedScore);
    }
  }

  /** In a session no word is shown twice, so there are at most as many words shown as listed. */
  lemma SessionAtMostListLength(vm: GameViewModel)
    requires vm.Valid()
    ensures |vm.presented| <= |vm.allWords|
    ensures |vm.usedWords| == |vm.presented|
  {
    DistinctWithin(vm.presented, vm.allWords);
    DistinctCard(vm.presented);
  }

  /**
    When the list is short enough that a clean sweep of it fits in an `Int`, the score
    never wraps: it is exactly `scoreIncrease` times the number of words solved.
   */
  lemma ScoreCountsSolvedWords(vm: GameViewModel)
    requires vm.Valid()
    requires 0 <= vm.scoreIncrease && |vm.allWords| * vm.scoreIncrease <= MAX
    ensures vm.uiState.score == (|vm.usedWords| - 1) * vm.scoreIncrease
  {
    SessionAtMostListLength(vm);
    CountWithoutWrap(|vm.presented| - 1, |vm.allWords|, vm.scoreIncrease);
  }
}

/** Sessions over the two-word list ["go", "up"], with the draws spelled out. */
module GameScenario {
  import opened Text
  import opened Shuffling
  import opened UiState
  import opened Game

  lemma FirstWordGo()
    ensures DrawsReachUnused(["go", "up"], {}, [0])
    ensures PickedWord(["go", "up"], {}, [0]) == "go"
    ensures Scramblable("go", [[0, 0]])
    ensures Scrambled("go", [[0, 0]]) == "og"
  {
    assert Drawn(["go", "up"], [0][0]) == "go";
    assert Swap("go", 1, 0) == "og";
    assert [[0, 0]][0] == [0, 0];
  }

  lemma NextWordUp()
    ensures DrawsReachUnused(["go", "up"], {"go"}, [0, 1])
    ensures PickedWord(["go", "up"], {"go"}, [0, 1]) == "up"
    ensures Scramblable("up", [[0, 0]])
    ensures Scrambled("up", [[0, 0]]) == "pu"
  {
    assert Drawn(["go", "up"], [0, 1][0]) == "go";
    assert Drawn(["go", "up"], [0, 1][1]) == "up";
    assert [0, 1][1..] == [1];
    assert Swap("up", 1, 0) == "pu";
    assert [[0, 0]][0] == [0, 0];
  }

  /** A fresh session whose first draw picks "go". */
  method StartWithGo() returns (vm: GameViewModel)
    ensures fresh(vm) && vm.Valid()
    ensures vm.allWords == ["go", "up"] && vm.scoreIncrease == 20
    ensures vm.currentWord == "go" && vm.usedWords == {"go"}
    ensures vm.uiState == GameUiState("og", false, 0) && vm.userGuess == ""
  {
    FirstWordGo();
    vm := new GameViewModel(["go", "up"], 20, [0], [[0, 0]]);
  }

  /** A correct guess typed in capitals scores, and the pending guess is cleared. */
  method CorrectGuessInCapitalsScores()
  {
    var vm := StartWithGo();
    vm.UpdateUserGuess("GO");
    assert EqualsIgnoreCase("GO", "go") by { UppercaseMatches("go"); }
    NextWordUp();
    vm.CheckUserGuess([0, 1], [[0, 0]]);
    assert vm.uiState.score == 20 && !vm.uiState.isGuessWordWrong;
    assert vm.userGuess == "";
  }

  /** A correct guess moves on to the word not yet shown, scrambled. */
  method CorrectGuessMovesOn()
  {
    var vm := StartWithGo();
    vm.UpdateUserGuess("GO");
    assert EqualsIgnoreCase("GO", "go") by { UppercaseMatches("go"); }
    NextWordUp();
    vm.CheckUserGuess([0, 1], [[0, 0]]);
    assert vm.currentWord == "up" && vm.usedWords == {"go"} + {"up"};
    assert vm.uiState.currentScrambledWord == "pu";
  }

  /** A wrong guess raises the flag and keeps the word, the scramble and the score. */
  method WrongGuessOnlyFlags()
  {
    var vm := StartWithGo();
    vm.UpdateUserGuess("ox");
    assert !CharEqualsIgnoreCase("ox"[0], "go"[0]);
    vm.CheckUserGuess([], []);
    assert vm.uiState == GameUiState("og", true, 0);
    assert vm.currentWord == "go" && vm.usedWords == {"go"} && vm.userGuess == "";
  }
}
