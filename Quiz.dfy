/**
 * The writing quiz (components/Quiz.tsx): the learner types the past and the participle of
 * a random non-modal verb; both must be right to score, with a bonus that grows with the
 * streak of consecutive successes.
 */
module WritingQuiz {
  import opened Wrappers
  import opened Text
  import opened Verbs

  // ---------------------------------------------------------------------------
  // The answer check
  // ---------------------------------------------------------------------------

  /** `clean`: lower-case, then trim. */
  function Clean(s: string): string {
    Trim(Lower(s))
  }

  /**
   * `clean` is the normalisation every free-text check shares: no upper-case letter and no
   * surrounding whitespace are left, and case and padding of the input do not matter.
   */
  lemma CleanIsNormalize(s: string, w1: string, w2: string)
    requires AllWhitespace(w1) && AllWhitespace(w2)
    ensures Clean(s) == Normalize(s) && NoUpper(Clean(s))
    ensures Clean(w1 + s + w2) == Clean(s) && Clean(Lower(s)) == Clean(s)
  {
    NormalizeIgnoresCaseAndPadding(w1, s, w2);
  }

  /** The accepted spellings of an answer: its "/"-separated pieces. */
  function Possibilities(answer: string): seq<string> {
    Split(answer, "/")
  }

  /** `pieces.map(clean)`. */
  function CleanAll(pieces: seq<string>): (r: seq<string>)
    ensures |r| == |pieces| && forall k :: 0 <= k < |pieces| ==> r[k] == Clean(pieces[k])
  {
    if pieces == [] then [] else [Clean(pieces[0])] + CleanAll(pieces[1..])
  }

  /** `isCorrect`: the cleaned input is among the cleaned pieces of the answer. */
  predicate IsCorrect(input: string, answer: string) {
    Clean(input) in CleanAll(Possibilities(answer))
  }

  /** `isCorrect` without the mapped list: some piece cleans to the same text as the input. */
  lemma IsCorrectMeaning(input: string, answer: string)
    ensures IsCorrect(input, answer) <==>
            exists k :: 0 <= k < |Possibilities(answer)| && Clean(Possibilities(answer)[k]) == Clean(input)
  {
    var pieces := Possibilities(answer);
    var cleaned := CleanAll(pieces);
    if IsCorrect(input, answer) {
      var k :| 0 <= k < |cleaned| && cleaned[k] == Clean(input);
      assert Clean(pieces[k]) == Clean(input);
    }
    if exists k :: 0 <= k < |pieces| && Clean(pieces[k]) == Clean(input) {
      var k :| 0 <= k < |pieces| && Clean(pieces[k]) == Clean(input);
      assert cleaned[k] == Clean(input);
    }
  }

  /** Case and surrounding whitespace of the typed text never change the verdict. */
  lemma IsCorrectIgnoresCaseAndPadding(input: string, answer: string, w1: string, w2: string)
    requires AllWhitespace(w1) && AllWhitespace(w2)
    ensures IsCorrect(w1 + input + w2, answer) == IsCorrect(input, answer)
    ensures IsCorrect(Lower(input), answer) == IsCorrect(input, answer)
  {
    NormalizeIgnoresCaseAndPadding(w1, input, w2);
    IsCorrectMeaning(w1 + input + w2, answer);
    IsCorrectMeaning(Lower(input), answer);
    IsCorrectMeaning(input, answer);
  }

  /** Each piece of the answer is accepted, typed in any case and with any padding. */
  lemma IsCorrectAcceptsEveryPiece(answer: string, k: nat, w1: string, w2: string)
    requires k < |Possibilities(answer)|
    requires AllWhitespace(w1) && AllWhitespace(w2)
    ensures IsCorrect(w1 + Possibilities(answer)[k] + w2, answer)
  {
    var piece := Possibilities(answer)[k];
    NormalizeIgnoresCaseAndPadding(w1, piece, w2);
    IsCorrectMeaning(w1 + piece + w2, answer);
  }

  /** An answer without alternates is accepted when typed as it is written. */
  lemma IsCorrectAcceptsPlainAnswer(answer: string)
    requires !Contains(answer, "/")
    ensures IsCorrect(answer, answer)
  {
    SplitWithoutSeparator(answer, "/");
    IsCorrectMeaning(answer, answer);
    assert Possibilities(answer)[0] == answer;
  }

  /** A submission succeeds only when both typed forms are right. */
  predicate Solved(v: Verb, past: string, part: string) {
    IsCorrect(past, v.past) && IsCorrect(part, v.participle)
  }

  // ---------------------------------------------------------------------------
  // Scoring
  // ---------------------------------------------------------------------------

  /** The points of a success: ten plus two per success already in the streak. */
  function Reward(streak: nat): (p: nat)
    ensures p >= 10 && p % 2 == 0
  {
    10 + streak * 2
  }

  /** Points earned by a streak of `n` successes started from a streak of zero. */
  function StreakTotal(n: nat): nat {
    if n == 0 then 0 else StreakTotal(n - 1) + Reward(n - 1)
  }

  /** A streak of `n` successes is worth `n * (n + 9)` points. */
  lemma {:induction false} StreakTotalClosedForm(n: nat)
    ensures StreakTotal(n) == n * (n + 9)
  {
    if n > 0 {
      StreakTotalClosedForm(n - 1);
    }
  }

  /** Breaking a streak never pays: one success after a reset earns no more than continuing would. */
  lemma RewardGrowsWithStreak(a: nat, b: nat)
    requires a <= b
    ensures Reward(a) <= Reward(b) && Reward(b) - Reward(a) == 2 * (b - a)
  {
  }

  // ---------------------------------------------------------------------------
  // The component state and its updates
  // ---------------------------------------------------------------------------

  /** The component's feedback hook: 'idle', 'success' or 'error'. */
  datatype Feedback = Idle | Success | Error

  /**
   * The component's state hooks, gathered in one record with the fields of the `QuizState`
   * interface (types.ts); the component's own feedback values are used.
   */
  datatype QuizState = QuizState(
    currentVerb: Option<Verb>,
    score: nat,
    streak: nat,
    showAnswer: bool,
    inputPast: string,
    inputPart: string,
    feedback: Feedback)

  /** The state on mount, before the first verb is picked. */
  function InitialQuiz(): QuizState {
    QuizState(None, 0, 0, false, "", "", Idle)
  }

  /**
   * The resets of `pickRandomVerb` once `v` is drawn; score and streak carry over. With no
   * non-modal verb the draw is `undefined`, which is `None` here.
   */
  function VerbPicked(s: QuizState, v: Option<Verb>): QuizState {
    s.(currentVerb := v, inputPast := "", inputPart := "", feedback := Idle, showAnswer := false)
  }

  /**
   * The branch of `handleSubmit` once both forms are checked: both right scores the
   * streak's reward and extends the streak; anything else shows the error and resets it.
   */
  function Judged(s: QuizState, pastCorrect: bool, partCorrect: bool): QuizState {
    if pastCorrect && partCorrect then
      s.(feedback := Success, score := s.score + Reward(s.streak), streak := s.streak + 1)
    else
      s.(feedback := Error, streak := 0)
  }

  /** `handleSubmit`: without a verb nothing changes; otherwise both typed forms are checked. */
  function Submitted(s: QuizState): QuizState {
    match s.currentVerb
    case None => s
    case Some(v) => Judged(s, IsCorrect(s.inputPast, v.past), IsCorrect(s.inputPart, v.participle))
  }

  /** Without a verb ("Loading..." shows) a submission changes nothing. */
  lemma SubmitWithoutVerb(s: QuizState)
    requires s.currentVerb.None?
    ensures Submitted(s) == s
  {
  }

  /** `handleGiveUp`: reveal both forms and lose the streak. */
  function GaveUp(s: QuizState): QuizState {
    s.(showAnswer := true, streak := 0)
  }

  /**
   * A submission never lowers the score and touches only score, streak and feedback; it
   * succeeds exactly when both typed forms are right, adding the reward and extending the
   * streak, and otherwise keeps the score and loses the streak.
   */
  lemma SubmitOutcome(s: QuizState)
    requires s.currentVerb.Some?
    ensures var t := Submitted(s);
            && t.score >= s.score
            && t.currentVerb == s.currentVerb && t.inputPast == s.inputPast && t.inputPart == s.inputPart
            && t.showAnswer == s.showAnswer
            && (t.feedback == Success <==> Solved(s.currentVerb.value, s.inputPast, s.inputPart))
            && (t.feedback == Success ==> t.score - s.score == Reward(s.streak) && t.streak == s.streak + 1)
            && (t.feedback == Error ==> t.score == s.score && t.streak == 0)
  {
  }

  /**
   * The "Check Answer" button stays while the success overlay shows and the inputs keep
   * their text, so a second press before the next verb is a second success.
   */
  lemma ResubmitSucceeds(s: QuizState)
    requires s.currentVerb.Some? && Solved(s.currentVerb.value, s.inputPast, s.inputPart)
    ensures Submitted(s) == Judged(s, true, true)
    ensures Submitted(Submitted(s)) == Judged(Judged(s, true, true), true, true)
  {
    var t := Submitted(s);
    assert t.currentVerb == s.currentVerb && t.inputPast == s.inputPast && t.inputPart == s.inputPart;
  }

  /** `n` successes in a row. */
  function Successes(s: QuizState, n: nat): QuizState {
    if n == 0 then s else Judged(Successes(s, n - 1), true, true)
  }

  /** `n` successes in a row from a streak of zero earn `n * (n + 9)` points. */
  lemma {:induction false} SuccessesScore(s: QuizState, n: nat)
    ensures Successes(s, n).streak == s.streak + n
    ensures Successes(s, n).score == s.score + StreakTotal(s.streak + n) - StreakTotal(s.streak)
    ensures s.streak == 0 ==> Successes(s, n).score == s.score + n * (n + 9)
  {
    if n > 0 {
      SuccessesScore(s, n - 1);
    }
    StreakTotalClosedForm(n);
  }

  // ---------------------------------------------------------------------------
  // The component
  // ---------------------------------------------------------------------------

  /** The Quiz component: the catalogue it reads and its state. */
  class Quiz {
    const catalog: seq<Verb>
    var state: QuizState

    /** The verb asked is a non-modal catalogue verb. */
    predicate Valid()
      reads this
    {
      state.currentVerb.Some? ==> state.currentVerb.value in NonModal(catalog)
    }

    /** The component on mount, before its first verb is picked. */
    constructor (catalog: seq<Verb>)
      ensures Valid() && this.catalog == catalog && state == InitialQuiz()
    {
      this.catalog := catalog;
      state := InitialQuiz();
    }

    /**
     * `pickRandomVerb`: a random non-modal verb with empty inputs, no feedback and the answer
     * hidden. It runs on mount, after a success and from the "Next Verb" button. Without a
     * non-modal verb the draw is `undefined`: the fields reset and no verb is shown.
     */
    method PickRandomVerb()
      requires Valid()
      modifies this
      ensures Valid() && (state.currentVerb.Some? <==> NonModal(catalog) != [])
      ensures state == VerbPicked(old(state), state.currentVerb)
    {
      var valid := NonModal(catalog);
      if valid == [] {
        state := VerbPicked(state, None);
      } else {
        assert valid[0] in valid;
        var random :| random in valid;
        state := VerbPicked(state, Some(random));
      }
    }

    /** Typing into the two fields, which are disabled after a success and once the answer shows. */
    method Type(past: string, part: string)
      requires Valid() && state.feedback != Success && !state.showAnswer
      modifies this
      ensures Valid() && state == old(state).(inputPast := past, inputPart := part)
    {
      state := state.(inputPast := past, inputPart := part);
    }

    /** `handleSubmit`, offered while the answer is hidden. */
    method HandleSubmit()
      requires Valid() && !state.showAnswer
      modifies this
      ensures Valid() && state == Submitted(old(state))
    {
      state := Submitted(state);
    }

    /** `handleGiveUp`, offered while the answer is hidden. */
    method HandleGiveUp()
      requires Valid() && !state.showAnswer
      modifies this
      ensures Valid() && state == GaveUp(old(state))
    {
      state := GaveUp(state);
    }
  }
}
