/**
 * Time attack (components/TimeAttack.tsx): sixty seconds of four-button questions on random
 * catalogue verbs, 100 points per right answer, one answer per question.
 */
module TimeAttackGame {
  import opened Wrappers
  import opened Text
  import opened Verbs
  import opened Collections

  const GameDuration: int := 60
  const RightPoints: nat := 100

  // ---------------------------------------------------------------------------
  // Questions and answers
  // ---------------------------------------------------------------------------

  /**
   * The asked form once the category is known: `category.includes('Modal')` forces the past,
   * otherwise the drawn mode stands. Only the MODAL category's label mentions "Modal".
   */
  function SafeForm(v: Verb, mode: Form): (f: Form)
    ensures v.category == MODAL ==> f == Past
    ensures v.category != MODAL ==> f == mode
  {
    LabelMentionsModalOnlyForModal(v.category);
    if Contains(Label(v.category), "Modal") then Past else mode
  }

  /** `correctAnswer.includes(option)`: any piece of the answer counts as right. */
  predicate IsRight(option: string, correct: string) {
    Contains(correct, option)
  }

  /** The filter of the distractor loop as written: not the answer and no "/". */
  predicate AcceptedAsWritten(d: string, correct: string) {
    d != correct && !Contains(d, "/")
  }

  /**
   * The distractor filter with the missing condition added: besides the loop's own tests,
   * a distractor must not be a piece of the answer, which the answer check would accept.
   */
  predicate IsDistractor(d: string, correct: string) {
    AcceptedAsWritten(d, correct) && !Contains(correct, d)
  }

  /** The catalogue forms the distractor loop as written can keep for an answer. */
  function PoolAsWritten(catalog: seq<Verb>, correct: string): (pool: set<string>)
    ensures forall d :: d in pool <==> d in Forms(catalog) && AcceptedAsWritten(d, correct)
  {
    set d | d in Forms(catalog) && AcceptedAsWritten(d, correct)
  }

  /** The catalogue forms the corrected loop can keep for an answer. */
  function DistractorPool(catalog: seq<Verb>, correct: string): (pool: set<string>)
    ensures forall d :: d in pool <==> d in Forms(catalog) && IsDistractor(d, correct)
    ensures pool <= PoolAsWritten(catalog, correct)
  {
    set d | d in Forms(catalog) && IsDistractor(d, correct)
  }

  /**
   * With the filter as written, a wrong button can score: for the participle of
   * (bite, bit, bitten) the past "bit" passes the distractor loop's tests, yet the answer
   * check accepts it because "bitten" contains "bit".
   */
  lemma WrongButtonScoresAsWritten()
    ensures var bite := Verb("bite", "bit", "bitten", N_ENDING);
            var correct := Answer(bite, Participle);
            && "bit" in PoolAsWritten([bite], correct)
            && IsRight("bit", correct) && "bit" != correct
            && "bit" !in DistractorPool([bite], correct)
  {
    var bite := Verb("bite", "bit", "bitten", N_ENDING);
    assert "bit" in Forms([bite]) by {
      assert bite in [bite];
    }
    NoSlash("bit");
    ContainsAt("bitten", "bit", 0);
  }

  /** A text without a "/" does not contain "/". */
  lemma NoSlash(s: string)
    requires '/' !in s
    ensures !Contains(s, "/")
  {
    if Contains(s, "/") {
      ContainsHead(s, "/");
    }
  }

  /** Four buttons: three distinct distractors and the answer. */
  predicate FourOptions(opts: seq<string>, correct: string) {
    |opts| == 4 && Distinct(opts) && correct in opts
  }

  /**
   * `generateOptions` as written: keep drawing catalogue forms until three distinct ones pass
   * the filter, then shuffle them with the answer. Draws the filter rejects or that repeat a
   * kept form change nothing, so only new kept forms are modelled; the loop ends exactly
   * when the catalogue offers three forms the filter keeps.
   */
  method GenerateOptions(correct: string, catalog: seq<Verb>) returns (opts: seq<string>)
    requires |PoolAsWritten(catalog, correct)| >= 3
    ensures FourOptions(opts, correct)
    ensures forall o :: o in opts && o != correct ==> o in Forms(catalog) && AcceptedAsWritten(o, correct)
  {
    var wrong := DrawDistractors(PoolAsWritten(catalog, correct));
    opts := ShuffleWithAnswer(wrong, correct);
  }

  /**
   * `generateOptions` with the corrected filter: the same loop on the forms that are not a
   * piece of the answer, so that only the answer's button is right.
   */
  method GenerateOptionsCorrected(correct: string, catalog: seq<Verb>) returns (opts: seq<string>)
    requires |DistractorPool(catalog, correct)| >= 3
    ensures FourOptions(opts, correct)
    ensures forall o :: o in opts && o != correct ==> o in Forms(catalog) && IsDistractor(o, correct)
    ensures forall o :: o in opts ==> (IsRight(o, correct) <==> o == correct)
  {
    var wrong := DrawDistractors(DistractorPool(catalog, correct));
    opts := ShuffleWithAnswer(wrong, correct);
    ContainsSelf(correct);
  }

  /** The `while (wrongOptions.size < 3)` loop: three distinct forms drawn from `pool`. */
  method DrawDistractors(pool: set<string>) returns (wrong: seq<string>)
    requires |pool| >= 3
    ensures |wrong| == 3 && Distinct(wrong)
    ensures forall d :: d in wrong ==> d in pool
  {
    wrong := [];
    while |wrong| < 3
      invariant Distinct(wrong) && |wrong| <= 3
      invariant forall d :: d in wrong ==> d in pool
      decreases 3 - |wrong|
    {
      FreshElement(pool, wrong);
      var d :| d in pool && d !in wrong;
      wrong := wrong + [d];
    }
  }

  /** `[...wrongOptions, correctAnswer].sort(() => Math.random() - 0.5)`. */
  method ShuffleWithAnswer(wrong: seq<string>, correct: string) returns (opts: seq<string>)
    requires |wrong| == 3 && Distinct(wrong) && correct !in wrong
    ensures FourOptions(opts, correct)
    ensures forall o :: o in opts <==> o in wrong || o == correct
  {
    var all := wrong + [correct];
    assert Distinct(all) by {
      forall i, j | 0 <= i < j < |all| ensures all[i] != all[j] {
        if j < 3 { assert all[i] == wrong[i] && all[j] == wrong[j]; }
        else { assert all[i] in wrong; }
      }
    }
    opts :| multiset(opts) == multiset(all);
    PermutationKeepsDistinct(all, opts);
    PermutationSameValues(all, opts);
    assert |opts| == |multiset(opts)| == |all|;
    assert all[3] in all;
  }

  // ---------------------------------------------------------------------------
  // The component state and its updates
  // ---------------------------------------------------------------------------

  datatype Phase = Playing | GameOver

  /** The component's state hooks. */
  datatype TimeAttackState = TimeAttackState(
    gameState: Phase,
    timeLeft: int,
    score: nat,
    currentVerb: Option<Verb>,
    options: seq<string>,
    targetForm: Form,
    selectedOption: Option<string>,
    isCorrect: Option<bool>)

  /** The state on mount: sixty seconds, no question yet. */
  function InitialTimeAttack(): TimeAttackState {
    TimeAttackState(Playing, GameDuration, 0, None, [], Past, None, None)
  }

  /** JavaScript truthiness of `selectedOption`: the empty string counts as no selection. */
  predicate HasSelection(s: TimeAttackState) {
    s.selectedOption.Some? && s.selectedOption.value != ""
  }

  /** The updates of `startRound` once the verb, the form and the buttons are drawn. */
  function RoundStarted(s: TimeAttackState, v: Verb, form: Form, opts: seq<string>): TimeAttackState {
    s.(selectedOption := None, isCorrect := None, currentVerb := Some(v), targetForm := form, options := opts)
  }

  /**
   * `handleAnswer`: ignored once an option is selected, after the game or without a verb;
   * otherwise the option is recorded with its verdict and a right one scores 100.
   */
  function Answered(s: TimeAttackState, option: string): TimeAttackState {
    if HasSelection(s) || s.gameState == GameOver || s.currentVerb.None? then s
    else
      var right := IsRight(option, Answer(s.currentVerb.value, s.targetForm));
      s.(selectedOption := Some(option), isCorrect := Some(right),
         score := if right then s.score + RightPoints else s.score)
  }

  /** An answer after a selection, after the game or without a verb changes nothing. */
  lemma AnswerIgnored(s: TimeAttackState, option: string)
    requires HasSelection(s) || s.gameState == GameOver || s.currentVerb.None?
    ensures Answered(s, option) == s
  {
  }

  /** The interval's update: count down, and end the game at the last second. */
  function Ticked(s: TimeAttackState): TimeAttackState {
    if s.timeLeft <= 1 then s.(timeLeft := 0, gameState := GameOver) else s.(timeLeft := s.timeLeft - 1)
  }

  /**
   * Every question the component can ask (a catalogue verb in its safe form) has three forms
   * the distractor loop keeps, which is exactly when that loop can end.
   */
  predicate Playable(catalog: seq<Verb>) {
    catalog != []
    && forall v, mode :: v in catalog ==> |PoolAsWritten(catalog, Answer(v, SafeForm(v, mode)))| >= 3
  }

  /** The answer the current question expects. */
  function Expected(s: TimeAttackState): string
    requires s.currentVerb.Some?
  {
    Answer(s.currentVerb.value, s.targetForm)
  }

  /**
   * What holds between events: the clock stays within 0..60 and reads zero exactly when the
   * game is over; the question is a catalogue verb asked in a safe form, with four buttons:
   * the answer and three catalogue forms the distractor loop keeps; a verdict is present
   * exactly with a selection and is the answer check's verdict on it.
   */
  predicate Consistent(s: TimeAttackState, catalog: seq<Verb>) {
    0 <= s.timeLeft <= GameDuration
    && (s.gameState == GameOver <==> s.timeLeft == 0)
    && (s.currentVerb.Some? ==>
          s.currentVerb.value in catalog
          && (s.currentVerb.value.category == MODAL ==> s.targetForm == Past)
          && FourOptions(s.options, Expected(s))
          && (forall o :: o in s.options && o != Expected(s) ==>
                o in Forms(catalog) && AcceptedAsWritten(o, Expected(s))))
    && (s.isCorrect.Some? <==> s.selectedOption.Some?)
    && (s.selectedOption.Some? ==>
          s.currentVerb.Some? && s.isCorrect == Some(IsRight(s.selectedOption.value, Expected(s))))
  }

  // ---------------------------------------------------------------------------
  // What the updates keep and change
  // ---------------------------------------------------------------------------

  /**
   * An answer keeps the state consistent and never lowers the score. The first answer to a
   * question is recorded with the answer check's verdict and scores 100 exactly when the
   * check accepts it, which it always does for the answer itself.
   */
  lemma AnswerKeeps(s: TimeAttackState, catalog: seq<Verb>, option: string)
    requires Consistent(s, catalog) && option in s.options
    ensures Consistent(Answered(s, option), catalog)
    ensures Answered(s, option).score >= s.score
    ensures !HasSelection(s) && s.gameState == Playing && s.currentVerb.Some? ==>
              Answered(s, option).selectedOption == Some(option)
              && Answered(s, option).isCorrect == Some(IsRight(option, Expected(s)))
              && (Answered(s, option).score == s.score + RightPoints <==> IsRight(option, Expected(s)))
              && (Answered(s, option).score == s.score <==> !IsRight(option, Expected(s)))
              && (option == Expected(s) ==> Answered(s, option).score == s.score + RightPoints)
  {
    if s.currentVerb.Some? {
      ContainsSelf(Expected(s));
    }
  }

  /**
   * With buttons from the corrected filter, a first answer scores exactly when it is the
   * answer itself.
   */
  lemma AnswerWithCorrectedOptions(s: TimeAttackState, catalog: seq<Verb>, option: string)
    requires Consistent(s, catalog) && option in s.options
    requires !HasSelection(s) && s.gameState == Playing && s.currentVerb.Some?
    requires forall o :: o in s.options && o != Expected(s) ==> IsDistractor(o, Expected(s))
    ensures Answered(s, option).score == s.score + RightPoints <==> option == Expected(s)
  {
    ContainsSelf(Expected(s));
  }

  /** The verbs of the example below. */
  const Bite := Verb("bite", "bit", "bitten", N_ENDING)
  const Go := Verb("go", "went", "gone", N_ENDING)

  /** The four forms of [bite, go], none of which contains "/". */
  lemma BiteGoForms()
    ensures Forms([Bite, Go]) == {"bit", "bitten", "went", "gone"}
    ensures forall d :: d in Forms([Bite, Go]) ==> !Contains(d, "/")
  {
    assert Bite in [Bite, Go] && Go in [Bite, Go];
    NoSlash("bit");
    NoSlash("bitten");
    NoSlash("went");
    NoSlash("gone");
  }

  /** The catalogue [bite, go] runs the game as written: every answer leaves three forms. */
  lemma BiteGoPlayable()
    ensures Playable([Bite, Go])
  {
    var catalog := [Bite, Go];
    BiteGoForms();
    forall v, mode | v in catalog
      ensures |PoolAsWritten(catalog, Answer(v, SafeForm(v, mode)))| >= 3
    {
      var a := Answer(v, SafeForm(v, mode));
      var others := Forms(catalog) - {a};
      assert PoolAsWritten(catalog, a) == others;
      assert a in Forms(catalog);
      assert |Forms(catalog)| == 4;
    }
  }

  /**
   * The component as written reaches a state that shows "bit" for the participle of
   * (bite, bit, bitten) on the catalogue [bite, go], which it can run; pressing "bit"
   * scores 100 although it is not the answer.
   */
  lemma WrongButtonScoresInGame()
    ensures var s := TimeAttackState(Playing, GameDuration, 0, Some(Bite), ["bit", "went", "gone", "bitten"],
                                     Participle, None, None);
            && Playable([Bite, Go]) && Consistent(s, [Bite, Go])
            && Answered(s, "bit").score == s.score + RightPoints && "bit" != Expected(s)
  {
    BiteGoPlayable();
    BiteGoForms();
    ContainsAt("bitten", "bit", 0);
  }

  /** Once a non-empty option is selected, later answers change nothing: one answer per question. */
  lemma OneAnswerPerQuestion(s: TimeAttackState, first: string, second: string)
    requires first != ""
    requires s.gameState == Playing && s.currentVerb.Some?
    ensures Answered(Answered(s, first), second) == Answered(s, first)
  {
  }

  /** A tick keeps the state consistent and moves the clock down by one second, ending at zero. */
  lemma TickKeeps(s: TimeAttackState, catalog: seq<Verb>)
    requires Consistent(s, catalog) && s.gameState == Playing
    ensures Consistent(Ticked(s), catalog)
    ensures Ticked(s).timeLeft == s.timeLeft - 1 && Ticked(s).score == s.score
  {
  }

  /** `n` seconds of the interval. */
  function Ticks(s: TimeAttackState, n: nat): TimeAttackState {
    if n == 0 then s else Ticked(Ticks(s, n - 1))
  }

  /** The game runs for exactly as many ticks as seconds are left: sixty from the start. */
  lemma {:induction false} CountdownEnds(s: TimeAttackState, n: nat)
    requires s.gameState == Playing && 1 <= s.timeLeft && n <= s.timeLeft
    ensures Ticks(s, n).timeLeft == s.timeLeft - n
    ensures Ticks(s, n).gameState == (if n == s.timeLeft then GameOver else Playing)
    ensures Ticks(s, n).score == s.score
  {
    if n > 0 {
      CountdownEnds(s, n - 1);
    }
  }

  // ---------------------------------------------------------------------------
  // The component
  // ---------------------------------------------------------------------------

  /** The Time Attack component: the catalogue it reads and its state. */
  class TimeAttack {
    const catalog: seq<Verb>
    var state: TimeAttackState

    predicate Valid()
      reads this
    {
      Playable(catalog) && Consistent(state, catalog)
    }

    /** The component on mount, before its first question. */
    constructor (catalog: seq<Verb>)
      requires Playable(catalog)
      ensures Valid() && this.catalog == catalog && state == InitialTimeAttack()
    {
      this.catalog := catalog;
      state := InitialTimeAttack();
    }

    /**
     * `startRound`: a random catalogue verb, a random mode made safe for modal verbs, and
     * four buttons for its answer. It runs on mount and after each answer.
     */
    method StartRound()
      requires Valid()
      modifies this
      ensures Valid() && state.currentVerb.Some? && state.currentVerb.value in catalog
      ensures exists mode: Form ::
                state == RoundStarted(old(state), state.currentVerb.value,
                                      SafeForm(state.currentVerb.value, mode), state.options)
    {
      assert catalog[0] in catalog;
      var randomVerb :| randomVerb in catalog;
      var mode: Form :| true;
      var safeMode := SafeForm(randomVerb, mode);
      var correct := Answer(randomVerb, safeMode);
      assert |PoolAsWritten(catalog, Answer(randomVerb, SafeForm(randomVerb, mode)))| >= 3;
      var opts := GenerateOptions(correct, catalog);
      state := RoundStarted(state, randomVerb, safeMode, opts);
    }

    /** `handleAnswer`, from one of the buttons on screen. */
    method HandleAnswer(option: string)
      requires Valid() && option in state.options
      modifies this
      ensures Valid() && state == Answered(old(state), option)
    {
      AnswerKeeps(state, catalog, option);
      state := Answered(state, option);
    }

    /** One second of the interval, which runs until the game is over. */
    method Tick()
      requires Valid() && state.gameState == Playing
      modifies this
      ensures Valid() && state == Ticked(old(state))
    {
      TickKeeps(state, catalog);
      state := Ticked(state);
    }
  }
}
