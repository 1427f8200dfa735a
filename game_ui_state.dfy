/**
  The game's screen state: an immutable record that the view model replaces as a
  whole. Dafny's update expression `s.(f := v)` plays the part of Kotlin's `copy`.
 */
module UiState {
  import opened Int32

  /** What the screen shows: the scrambled word, whether the last guess was wrong, the score. */
  datatype GameUiState = GameUiState(
    currentScrambledWord: string := "",
    isGuessWordWrong: bool := false,
    score: int32 := 0)

  /** A state built with no arguments shows no word, no error and a zero score. */
  lemma DefaultState()
    ensures GameUiState().currentScrambledWord == ""
    ensures !GameUiState().isGuessWordWrong
    ensures GameUiState().score == 0
  {
  }

  /** Naming only the scrambled word keeps the other two fields at their defaults. */
  lemma NamedWordOnly(w: string)
    ensures GameUiState(currentScrambledWord := w) == GameUiState(w, false, 0)
  {
  }

  /** A copy that sets the wrong-guess flag keeps the word and the score. */
  lemma CopyChangesOnlyNamedField(s: GameUiState)
    ensures s.(isGuessWordWrong := true).isGuessWordWrong
    ensures s.(isGuessWordWrong := true).currentScrambledWord == s.currentScrambledWord
    ensures s.(isGuessWordWrong := true).score == s.score
  {
  }

  /** Two states are equal exactly when all three fields are. */
  lemma EqualIffFieldsEqual(s: GameUiState, t: GameUiState)
    ensures s == t <==>
      s.currentScrambledWord == t.currentScrambledWord &&
      s.isGuessWordWrong == t.isGuessWordWrong &&
      s.score == t.score
  {
  }
}
