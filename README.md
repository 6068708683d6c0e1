# Irregular verbs trainer — a verified model of its game logic

The application teaches English irregular verbs (base form, past simple, past participle)
through several game modes. This project models the logic of five of them, together with the
verb record they share, and proves properties of that logic in Dafny:

- **Quest** (`QuestGame.dfy`, `QuestRules.dfy`, `QuestOptions.dfy`, `QuestHistory.dfy`) is an RPG-style
  battle. Each round draws up to five non-modal verbs as enemies. An enemy first has a shield: the learner
  breaks it by choosing the right form among three buttons. The shield's buttons hold the answer and two
  "smart" distractors built from common mistakes. A broken shield sends the enemy to the back of the queue,
  where the form must then be spelled. A wrong answer or an expired clock costs a heart and sends the
  enemy to the back with one more mistake. Every fifth defeat heals a heart. The clock shortens as defeats
  accumulate, and a rank follows the defeat count. A session log records each (verb, form) pair as
  PERFECT or PRACTICED, and the final report splits the log by that status.
- **Writing quiz** (`Quiz.dfy`): the learner types both the past and the participle of a random non-modal
  verb. The check ignores case and surrounding spaces and accepts any `/`-separated alternate. A success
  scores a reward that grows with the streak. A failure or giving up resets the streak.
- **Time attack** (`TimeAttack.dfy`): a 60-second countdown. Each question asks for one form of a random
  verb, forced to the past for modal verbs, with four buttons. Only the first answer of a question counts,
  and a right one scores 100.
- **Match game** (`MatchGame.dfy`): up to six non-modal verbs are dealt as up to twelve shuffled cards. Each verb gives
  a base card and a target card. A base card and a target card of the same verb clicked in turn are
  matched. A mismatched pair is flagged until the flag is cleared. The level is complete when every card
  is matched.
- **Flashcards** (`Flashcards.dfy`): the catalogue is shuffled once, and "next" and "previous" move round
  the deck with wrap-around.

Shared modules: `Verbs.dfy` holds the verb record and the category labels of `types.ts`. `Text.dfy` holds
the JavaScript string operations the games use: `includes`, `trim`, `toLowerCase` (on ASCII letters), `split`. `Collections.dfy`
holds facts about distinct sequences and permutations, and `Wrappers.dfy` holds `Option` and `Min`.

Each component's state hooks are gathered into one record. Each handler's state change is a pure updater
function, as a `setState` updater is. Lemmas state what each updater keeps (a consistency invariant) and
what it changes. The component itself is a class with that record as a field. Its methods are proved to
perform exactly the updater and to preserve the invariant. Randomness (`Math.random`, shuffles by a random
comparator) is modelled as an arbitrary choice among the values the source can produce (`:|`). The clock
reading behind Quest ids is a parameter.

## Model

| member | source | states |
|---|---|---|
| Verbs.LabelMentionsModalOnlyForModal | types.ts:9-16 | Of the category labels, exactly the modal one contains "Modal", so the `includes('Modal')` test of the time attack singles out modal verbs |
| Verbs.NonModal | components/QuestGame.tsx:194 | `filter(v => v.category !== MODAL)`: exactly the catalogue verbs that are not modal, a sub-multiset of the catalogue |
| Text.IndexOf | components/QuestGame.tsx:346 | `indexOf`: -1 exactly when the text does not occur, otherwise the first position where it occurs |
| Text.ContainsSelf | components/QuestGame.tsx:346 | Every string `includes` itself |
| Text.LeadingSpace | components/QuestGame.tsx:387 | The whitespace run `trim` removes at the front: all whitespace, followed by a non-space or the end |
| Text.TrailingSpace | components/QuestGame.tsx:387 | The whitespace run `trim` removes at the back: all whitespace, preceded by a non-space or the start |
| Text.TrimPadded | components/QuestGame.tsx:387 | `trim` ignores any whitespace padding added on both sides |
| Text.TrimIdempotent | components/QuestGame.tsx:387 | Trimming twice is trimming once |
| Text.LowerChar | components/QuestGame.tsx:387 | An ASCII letter is lower-cased; the result is never an ASCII capital, and whitespace stays whitespace |
| Text.Lower | components/QuestGame.tsx:387 | `toLowerCase` restricted to ASCII: each character is mapped on its own, A–Z to a–z and every other character kept |
| Text.LowerIdempotent | components/QuestGame.tsx:387 | Lower-casing twice is lower-casing once |
| Text.LowerTrimCommute | components/Quiz.tsx:10 | Lower-casing then trimming equals trimming then lower-casing, so the Quest's and the quiz's orders agree |
| Text.Normalize | components/Quiz.tsx:10 | The normalised text has no upper-case letter and no whitespace at either end |
| Text.TrimmedEnds | components/QuestGame.tsx:387 | After `trim` neither the first nor the last character is whitespace |
| Text.TrimmedNoUpper | components/QuestGame.tsx:387 | `trim` introduces no upper-case letter |
| Text.NormalizeIgnoresCaseAndPadding | components/Quiz.tsx:10 | Normalisation ignores the case of the input and any whitespace padding |
| Text.NormalizeIdempotent | components/Quiz.tsx:10 | Normalising twice is normalising once |
| Text.Split | components/QuestGame.tsx:388 | `split` always yields at least one piece |
| Text.JoinSplit | components/QuestGame.tsx:388 | Joining the pieces of `split` with the separator gives back the original text |
| Text.SplitPiecesFree | components/Quiz.tsx:13 | No piece of `split` contains the separator |
| Text.SplitWithoutSeparator | components/Quiz.tsx:13 | Text without the separator splits into itself alone |
| QuestRules.GetRank | components/QuestGame.tsx:56-62 | The rank is the highest one whose threshold (0, 5, 15, 30, 50) the defeat count reaches |
| QuestRules.RankMonotone | components/QuestGame.tsx:56-62 | More defeats never give a lower rank |
| QuestRules.TimeBudget | components/QuestGame.tsx:209 | The clock lies between 5 and 15 seconds: 15 exactly below 5 defeats, 5 exactly from 50 defeats |
| QuestRules.TimeBudgetMonotone | components/QuestGame.tsx:209 | More defeats never give more time |
| QuestRules.TimeBudgetStep | components/QuestGame.tsx:209 | Every five defeats take one second off, down to the 5-second floor |
| QuestRules.ChoiceMatches | components/QuestGame.tsx:346 | The Choice check: the button is accepted when the answer contains it (`includes`); its meaning is stated by the lemmas below |
| QuestRules.SpellingMatches | components/QuestGame.tsx:387-390 | The Spell check: the trimmed, lower-cased input is among the trimmed, lower-cased " / "-separated alternates; its meaning is stated by `SpellingMatchesMeaning` |
| QuestRules.SpellingMatchesMeaning | components/QuestGame.tsx:387-390 | An input is accepted exactly when some " / "-separated alternate normalises to the same text |
| QuestRules.SpellingAcceptsEveryAlternate | components/QuestGame.tsx:387-390 | Every alternate is accepted with any padding, and also lower-cased |
| QuestRules.SpellingIgnoresCaseAndPadding | components/QuestGame.tsx:387-390 | Padding and case of the input never change the verdict |
| QuestRules.SpellingAcceptsPlainAnswer | components/QuestGame.tsx:387-390 | An answer without " / " is accepted when typed as written |
| QuestRules.SpellingAlternateIsChoice | components/QuestGame.tsx:346 | Every spelled alternate is also accepted by the Choice stage's `includes` check |
| QuestRules.JoinContainsPiece | components/QuestGame.tsx:346 | A joined answer contains each of its pieces |
| QuestOptions.Proposals | components/QuestGame.tsx:236-253 | The heuristic mistakes in the order the source adds them; what they are is stated by `CandidatesComplete` and `CandidatesAreHeuristic` |
| QuestOptions.AddUnique | components/QuestGame.tsx:233-253 | `Set.add`: adds the value if new, keeps the earlier values in order and stays duplicate-free |
| QuestOptions.InsertAll | components/QuestGame.tsx:233-253 | A run of `Set.add` holds exactly the earlier and the added values, duplicate-free |
| QuestOptions.Candidates | components/QuestGame.tsx:233-253 | The candidate set is duplicate-free and holds exactly the heuristics' proposals |
| QuestOptions.CandidatesComplete | components/QuestGame.tsx:235-253 | Each heuristic whose condition holds contributes its mistake ("-ed", "-d", other form, base, "-en", doubled consonant) |
| QuestOptions.CandidatesAreHeuristic | components/QuestGame.tsx:235-253 | Every candidate is one of the heuristic mistakes |
| QuestOptions.FilterPlausible | components/QuestGame.tsx:256-257 | The filter keeps exactly the candidates that are not the answer, not part of it and not empty |
| QuestOptions.SmartWrongs | components/QuestGame.tsx:256-257 | The smart distractors: the plausible candidates, characterised by `FilterPlausible` and `SmartWrongRejected` |
| QuestOptions.CanFill | components/QuestGame.tsx:261-267 | The condition under which the fallback loop can end: two smart distractors, or enough other catalogue forms to top them up |
| QuestOptions.SmartWrongRejected | components/QuestGame.tsx:256-257 | A smart distractor is never accepted by the Choice check |
| QuestOptions.OptionsAvailable | components/QuestGame.tsx:261-267 | A catalogue with three distinct forms always lets the fallback loop finish, for any question |
| QuestOptions.GenerateOptions | components/QuestGame.tsx:226-270 | Three distinct buttons including the answer, whenever the fallback loop can finish. With two smart distractors, only those are used and only the answer passes the Choice check. With fewer, every smart distractor is offered and the fallback adds catalogue forms |
| QuestOptions.PickOptions | components/QuestGame.tsx:256-270 | Three distinct buttons with the answer, whenever the fallback loop can finish. The smart distractors come first: with two or fewer, all of them are offered; the others are catalogue forms |
| QuestOptions.FillWithRandomForms | components/QuestGame.tsx:261-267 | Whenever enough new forms exist, the loop ends with at least two distinct non-answers. It keeps the existing ones in front, adds only catalogue forms, and adds nothing when two exist |
| QuestOptions.ShuffleWithAnswer | components/QuestGame.tsx:270 | A shuffle of the answer and the two distractors: three distinct buttons, exactly those |
| QuestOptions.OnlyAnswerMatches | components/QuestGame.tsx:346 | Among the answer and smart distractors, a button passes the Choice check exactly when it is the answer |
| QuestOptions.ShuffledOptions | components/QuestGame.tsx:270 | Any permutation of the answer and two distinct distractors is a valid set of buttons |
| QuestHistory.IndexOfEntry | components/QuestGame.tsx:287 | `findIndex` on the log: -1 exactly when no entry has that (verb, form), otherwise the first such entry |
| QuestHistory.FindEntry | components/QuestGame.tsx:287 | The search loop returns the same index as the specification |
| QuestHistory.RecordMistake | components/QuestGame.tsx:285-299 | A mistake makes the pair's entry PRACTICED with one more miss, or appends one with one miss. Other entries are unchanged, and the log stays one entry per pair with consistent statuses |
| QuestHistory.RecordSuccess | components/QuestGame.tsx:402-407 | A success appends a PERFECT entry with no misses only when the pair has none; otherwise the log is unchanged |
| QuestHistory.PracticedIsSticky | components/QuestGame.tsx:289-291 | Once PRACTICED, an entry stays PRACTICED, whatever is recorded later |
| QuestHistory.WithStatus | components/QuestGame.tsx:458-459 | The report filter keeps only entries of the requested status |
| QuestHistory.WithStatusMembers | components/QuestGame.tsx:458-459 | An entry is listed exactly when it is in the log with that status |
| QuestHistory.WithStatusAppend | components/QuestGame.tsx:458-459 | The report lists keep insertion order: the lists of a longer log extend those of its prefix |
| QuestHistory.ReportPartition | components/QuestGame.tsx:485-486 | The PERFECT and NEEDS PRACTICE lists together hold every log entry exactly once |
| QuestGame.RoundStarted | components/QuestGame.tsx:207-222 | The updater of a new round; stated by `RoundStartKeeps` |
| QuestGame.Damaged | components/QuestGame.tsx:275-313 | The updater of damage; stated by `DamageKeeps` and `DamageRequeues` |
| QuestGame.DamageWithoutEnemy | components/QuestGame.tsx:275 | With no enemy shown, damage changes nothing |
| QuestGame.Scored | components/QuestGame.tsx:322-327 | The updater of `triggerSuccessEffect`: the points are added to the score |
| QuestGame.ShieldBroken | components/QuestGame.tsx:350-369 | The updater of a right choice; stated by `ShieldBrokenKeeps` |
| QuestGame.Defeated | components/QuestGame.tsx:397-436 | The updater of a right spelling; stated by `DefeatKeeps` and `DefeatOutcome` |
| QuestGame.Ticked | components/QuestGame.tsx:176-183 | The interval updater; stated by `TickKeeps` |
| QuestGame.Finished | components/QuestGame.tsx:447 | The updater of `finishSession`: the report shows and the campfire hides |
| QuestGame.Playable | components/QuestGame.tsx:194-267 | A catalogue on which every round can start: a non-modal verb exists and every question it can ask lets the fallback loop end |
| QuestGame.HitsNeededAppend | components/QuestGame.tsx:198-205 | Answers still needed add up over a split queue |
| QuestGame.HitsNeededFresh | components/QuestGame.tsx:203 | A queue of shielded enemies needs two answers per enemy |
| QuestGame.SendToBack | components/QuestGame.tsx:282-283 | Sending the head to the back keeps a valid queue with the same ids |
| QuestGame.DropHead | components/QuestGame.tsx:410 | Removing a spelled enemy keeps a valid queue needing one answer less |
| QuestGame.HealedHearts | components/QuestGame.tsx:398-399 | Hearts never drop and never pass five. A heart is gained exactly on every fifth defeat below the cap, and no other defeat changes them |
| QuestGame.FreshQueue | components/QuestGame.tsx:198-205 | One enemy per drawn verb, in order |
| QuestGame.InitialConsistent | components/QuestGame.tsx:140-157 | The initial state is consistent and in play, with no enemy |
| QuestGame.RoundStartKeeps | components/QuestGame.tsx:191-222 | A new round is consistent, needs two answers per enemy, and sets both clocks to the budget. All enemies are shielded with no mistakes; hearts, score and log are kept |
| QuestGame.DamageKeeps | components/QuestGame.tsx:273-317 | Damage keeps the state consistent and costs exactly one heart. The game ends exactly on the last heart, and the score is kept |
| QuestGame.DamageRequeues | components/QuestGame.tsx:278-309 | Damage keeps the same enemies and the answers still needed. The struck enemy goes last, unchanged except for one more mistake, the others keep their order, the clock restarts, and the pair is logged PRACTICED |
| QuestGame.ShieldBrokenKeeps | components/QuestGame.tsx:346-369 | A right choice keeps the state consistent, adds 20 points, and keeps hearts, log and enemies. The enemy goes last in the Spell stage with the others in order, one answer less is needed, and the clock restarts |
| QuestGame.DefeatKeeps | components/QuestGame.tsx:390-436 | A right spelling keeps the state consistent and neither ends the game nor opens the report |
| QuestGame.DefeatOutcome | components/QuestGame.tsx:390-436 | A right spelling adds 50 points and one defeat, and heals by the every-fifth rule. It removes the head, so one answer less is needed, and restarts the clock for the next enemy. It logs the pair, and the campfire comes exactly when the queue is empty |
| QuestGame.TickKeeps | components/QuestGame.tsx:176-183 | A tick keeps the state consistent; the clock counts down and restarts at the last second |
| QuestGame.ProgressOnlyOnHits | components/QuestGame.tsx:273-436 | Answers still needed fall by one with each right answer and are unchanged by damage |
| QuestGame.PrefixOfShuffle | components/QuestGame.tsx:195 | The first verbs of a shuffle are drawn from the filtered catalogue |
| QuestGame.ThreeFormsPlayable | components/QuestGame.tsx:261-267 | A catalogue with a non-modal verb and three distinct forms can run every round |
| QuestGame.Quest.constructor | components/QuestGame.tsx:140-157 | The component mounts in the consistent initial state |
| QuestGame.Quest.StartNewRound | components/QuestGame.tsx:191-222 | Starts a round of min(5, non-modal count) drawn verbs through the round updater, keeping the invariant |
| QuestGame.Quest.Damage | components/QuestGame.tsx:273-317 | Performs the damage updater and keeps the invariant |
| QuestGame.Quest.HandleChoice | components/QuestGame.tsx:335-373 | A matching button breaks the shield with 20 points; any other is damage |
| QuestGame.Quest.HandleSpelling | components/QuestGame.tsx:376-443 | A matching spelling defeats the enemy with 50 points; anything else is damage |
| QuestGame.Quest.Tick | components/QuestGame.tsx:172-187 | A tick counts down, and at the last second restarts the clock and deals damage |
| QuestGame.Quest.FinishSession | components/QuestGame.tsx:446-448 | Shows the final report and hides the campfire |
| WritingQuiz.Clean | components/Quiz.tsx:10 | `clean`: lower-case, then trim; stated by `CleanIsNormalize` |
| WritingQuiz.CleanIsNormalize | components/Quiz.tsx:10 | `clean` is the shared normalisation: no upper case, no padding, and insensitive to both |
| WritingQuiz.CleanAll | components/Quiz.tsx:13 | `map(clean)` cleans each piece in place |
| WritingQuiz.IsCorrect | components/Quiz.tsx:11-15 | `isCorrect`: the cleaned input is among the cleaned "/"-separated pieces; stated by the lemmas below |
| WritingQuiz.IsCorrectMeaning | components/Quiz.tsx:11-15 | An input is correct exactly when some `/`-separated piece cleans to the same text |
| WritingQuiz.IsCorrectIgnoresCaseAndPadding | components/Quiz.tsx:11-15 | Padding and case of the input never change the verdict |
| WritingQuiz.IsCorrectAcceptsEveryPiece | components/Quiz.tsx:11-15 | Every piece of the answer is accepted with any padding |
| WritingQuiz.IsCorrectAcceptsPlainAnswer | components/Quiz.tsx:11-15 | An answer without alternates is accepted as written |
| WritingQuiz.Reward | components/Quiz.tsx:61 | A success is worth at least 10 points, an even number |
| WritingQuiz.StreakTotalClosedForm | components/Quiz.tsx:61-62 | A streak of n successes from zero earns n(n+9) points |
| WritingQuiz.RewardGrowsWithStreak | components/Quiz.tsx:61 | A longer streak pays two more points per extra success |
| WritingQuiz.VerbPicked | components/Quiz.tsx:39-44 | The resets of `pickRandomVerb` with the drawn verb, or none when the filter is empty; score and streak carry over |
| WritingQuiz.Judged | components/Quiz.tsx:59-68 | The branch of `handleSubmit` after both checks; stated by `SubmitOutcome` |
| WritingQuiz.Submitted | components/Quiz.tsx:52-69 | `handleSubmit`; stated by `SubmitOutcome` and `ResubmitSucceeds` |
| WritingQuiz.SubmitWithoutVerb | components/Quiz.tsx:54 | Without a verb a submission changes nothing |
| WritingQuiz.GaveUp | components/Quiz.tsx:71-74 | `handleGiveUp`: the answer is revealed and the streak is lost |
| WritingQuiz.SubmitOutcome | components/Quiz.tsx:52-69 | A submission succeeds exactly when both forms are right; it scores the reward and extends the streak, otherwise keeps the score and resets the streak |
| WritingQuiz.ResubmitSucceeds | components/Quiz.tsx:52-69 | A solved question submitted again scores again, since the inputs are kept until the next verb |
| WritingQuiz.SuccessesScore | components/Quiz.tsx:59-62 | n successes in a row add n to the streak and the summed rewards to the score |
| WritingQuiz.Quiz.constructor | components/Quiz.tsx:19-25 | The quiz mounts on any catalogue, with no verb, zero score and streak, and no feedback |
| WritingQuiz.Quiz.PickRandomVerb | components/Quiz.tsx:36-50 | Clears inputs, feedback and the revealed answer, keeping score and streak. A verb is shown exactly when the catalogue has a non-modal verb, and it is one of them; otherwise "Loading..." stays |
| WritingQuiz.Quiz.Type | components/Quiz.tsx:129 | Typing changes only the two inputs, while they are enabled |
| WritingQuiz.Quiz.HandleSubmit | components/Quiz.tsx:52-69 | Performs the submission updater |
| WritingQuiz.Quiz.HandleGiveUp | components/Quiz.tsx:71-74 | Reveals the answer and resets the streak |
| TimeAttackGame.SafeForm | components/TimeAttack.tsx:63-64 | A modal verb is always asked in the past; any other verb in the drawn form |
| TimeAttackGame.IsRight | components/TimeAttack.tsx:80 | The answer check `correctAnswer.includes(option)`: any piece of the answer counts as right |
| TimeAttackGame.AcceptedAsWritten | components/TimeAttack.tsx:48 | The distractor filter as written: not the answer, and no "/" |
| TimeAttackGame.PoolAsWritten | components/TimeAttack.tsx:44-50 | The forms the distractor loop as written can keep: catalogue forms that are not the answer and have no "/" |
| TimeAttackGame.DistractorPool | components/TimeAttack.tsx:48 | The corrected pool (corrected half of the finding): the forms kept as written that are not part of the answer |
| TimeAttackGame.WrongButtonScoresAsWritten | components/TimeAttack.tsx:48 | As written, the filter keeps "bit" for the participle "bitten", and the `includes` check scores it, while the corrected pool excludes it |
| TimeAttackGame.GenerateOptions | components/TimeAttack.tsx:42-53 | As written: four distinct buttons including the answer, the others catalogue forms the filter keeps, whenever three such forms exist |
| TimeAttackGame.GenerateOptionsCorrected | components/TimeAttack.tsx:42-53 | Corrected half of the finding: four distinct buttons from the corrected pool; a button is scored right exactly when it is the answer |
| TimeAttackGame.DrawDistractors | components/TimeAttack.tsx:43-51 | The loop ends with three distinct forms of the pool |
| TimeAttackGame.ShuffleWithAnswer | components/TimeAttack.tsx:52 | The three distractors and the answer, shuffled: four distinct buttons, exactly those |
| TimeAttackGame.RoundStarted | components/TimeAttack.tsx:55-71 | The updates of `startRound` once verb, form and buttons are drawn |
| TimeAttackGame.Answered | components/TimeAttack.tsx:73-95 | `handleAnswer`; stated by `AnswerKeeps` and `OneAnswerPerQuestion` |
| TimeAttackGame.AnswerIgnored | components/TimeAttack.tsx:74 | An answer after a selection, after the game or without a verb changes nothing |
| TimeAttackGame.Ticked | components/TimeAttack.tsx:27-34 | The interval update; stated by `TickKeeps` and `CountdownEnds` |
| TimeAttackGame.Playable | components/TimeAttack.tsx:42-66 | Every question the component can ask (a catalogue verb in its safe form) has three forms the distractor loop keeps, which is when that loop can end |
| TimeAttackGame.AnswerKeeps | components/TimeAttack.tsx:73-95 | An answer keeps the state consistent and never lowers the score. The first answer is recorded with the `includes` verdict and scores 100 exactly when the check accepts it, always for the answer itself |
| TimeAttackGame.AnswerWithCorrectedOptions | components/TimeAttack.tsx:80-85 | With buttons from the corrected filter, a first answer scores exactly when it is the answer |
| TimeAttackGame.BiteGoPlayable | components/TimeAttack.tsx:44-50 | The catalogue [bite, go] runs the game as written: every question has three forms the loop keeps |
| TimeAttackGame.WrongButtonScoresInGame | components/TimeAttack.tsx:73-95 | On [bite, go], a consistent game state shows "bit" for "bitten", and pressing it scores 100 although it is not the answer |
| TimeAttackGame.OneAnswerPerQuestion | components/TimeAttack.tsx:74 | After a selection, further answers change nothing |
| TimeAttackGame.TickKeeps | components/TimeAttack.tsx:27-34 | A tick keeps the state consistent and takes one second off, keeping the score |
| TimeAttackGame.CountdownEnds | components/TimeAttack.tsx:26-35 | After n ticks the clock shows n seconds less, the game is over exactly when it reaches zero, and the score is kept |
| TimeAttackGame.TimeAttack.constructor | components/TimeAttack.tsx:12-19 | Mounts playing with 60 seconds, zero score and no question |
| TimeAttackGame.TimeAttack.StartRound | components/TimeAttack.tsx:55-71 | Asks a catalogue verb in its safe form, clears the selection, and shows four buttons from the generator as written |
| TimeAttackGame.TimeAttack.HandleAnswer | components/TimeAttack.tsx:73-95 | Performs the answer updater and keeps the invariant |
| TimeAttackGame.TimeAttack.Tick | components/TimeAttack.tsx:26-35 | Performs one second of the countdown and keeps the invariant |
| MatchGame.Matches | components/MatchGame.tsx:76 | Two cards form a pair: the same base form, one of each kind |
| MatchGame.IdsOf | components/MatchGame.tsx:9-14 | The card ids, position by position |
| MatchGame.Find | components/MatchGame.tsx:73 | `cards.find` by id: a card with that id, or none when no card has it |
| MatchGame.IdFound | components/MatchGame.tsx:73-74 | A present id is always found, so the early return never fires in a consistent state |
| MatchGame.FindsItself | components/MatchGame.tsx:73 | With distinct ids, looking up a card's id finds that card |
| MatchGame.DealtIdsDistinct | components/MatchGame.tsx:33-50 | The dealt cards have distinct ids |
| MatchGame.DealtPartner | components/MatchGame.tsx:33-50 | Every dealt card has a different card it matches |
| MatchGame.ShuffledDeck | components/MatchGame.tsx:52 | A shuffled deal keeps distinct ids, partners for every card, and its size |
| MatchGame.DealHasPartners | components/MatchGame.tsx:52 | A dealt and shuffled deck has distinct ids and a partner for every card |
| MatchGame.DealCards | components/MatchGame.tsx:31-50 | The loop deals a base card and a target card per verb with their own ids and the verb's base as match key |
| MatchGame.LevelStarted | components/MatchGame.tsx:52-54 | The updates of `startLevel` once the deck is dealt; stated by `LevelStartKeeps` |
| MatchGame.Clicked | components/MatchGame.tsx:57-92 | `handleCardClick`; stated by `ClickKeeps`, `ClickMatchesPairs`, `PairDisappears`, `MismatchFlagged` and `SecondClickDeselects` |
| MatchGame.WrongCleared | components/MatchGame.tsx:87-90 | The timeout after a wrong pair: the flags and the selection clear |
| MatchGame.IsComplete | components/MatchGame.tsx:94 | `isComplete` as written, by sizes; its meaning is stated by `CompleteIffAllMatched` |
| MatchGame.CompleteIffAllMatched | components/MatchGame.tsx:94 | The level is complete exactly when there are cards and every card is matched |
| MatchGame.ClickKeeps | components/MatchGame.tsx:57-92 | A click keeps the state consistent and the cards unchanged |
| MatchGame.ClickMatchesPairs | components/MatchGame.tsx:57-92 | Matched cards only grow, and only by a selected card and a different clicked card that it matches. A matched or flagged card ignores clicks |
| MatchGame.PairDisappears | components/MatchGame.tsx:76-82 | Clicking two matching cards matches both and deselects |
| MatchGame.MismatchFlagged | components/MatchGame.tsx:83-90 | Clicking two non-matching cards flags both, and clearing the flag leaves the state as before |
| MatchGame.SecondClickDeselects | components/MatchGame.tsx:60-70 | A first click selects a card and a second click on it deselects |
| MatchGame.LevelStartKeeps | components/MatchGame.tsx:26-55 | A new level is consistent and not complete, with two cards per verb |
| MatchGame.Match.constructor | components/MatchGame.tsx:17-20 | Mounts with no cards and no selection |
| MatchGame.Match.StartLevel | components/MatchGame.tsx:26-55 | Deals two cards for each of min(6, non-modal count) verbs taken from the non-modal verbs without repetition, a base card and a past or participle card, and shuffles them; the level is not complete |
| MatchGame.Match.HandleCardClick | components/MatchGame.tsx:57-92 | Performs the click updater and keeps the invariant |
| MatchGame.Match.ClearWrong | components/MatchGame.tsx:87-90 | Clears the mismatch flag and the selection |
| FlashcardDeck.NextIndex | components/Flashcards.tsx:24 | The next card is the following one, or the first after the last |
| FlashcardDeck.PrevIndex | components/Flashcards.tsx:32 | The previous card is the one before, or the last before the first |
| FlashcardDeck.NextPrevInverse | components/Flashcards.tsx:20-34 | "Previous" undoes "next" and vice versa |
| FlashcardDeck.AdvanceWraps | components/Flashcards.tsx:24 | Up to a full round, k presses of "next" move k cards on, wrapping once |
| FlashcardDeck.NextVisitsEveryCard | components/Flashcards.tsx:24 | "Next" reaches every card, returns to the start after a full round, and shows the deck in order |
| FlashcardDeck.Flashcards.constructor | components/Flashcards.tsx:10-18 | Mounts on the first card, front up, with a shuffle of the catalogue |
| FlashcardDeck.Flashcards.CurrentVerb | components/Flashcards.tsx:38 | The card shown is a card of the deck |
| FlashcardDeck.Flashcards.Position | components/Flashcards.tsx:47 | The counter shows a position between 1 and the deck size |
| FlashcardDeck.Flashcards.HandleNext | components/Flashcards.tsx:20-26 | Turns the card face up and moves to the next card |
| FlashcardDeck.Flashcards.HandlePrev | components/Flashcards.tsx:28-34 | Turns the card face up and moves to the previous card |
| FlashcardDeck.Flashcards.Flip | components/Flashcards.tsx:51 | Turns the card over and changes nothing else |

## Left out

- Sound, animations, the `isWalking`/`isAttacking`/`isDamaged`/`hitEffect` flags, the monster emoji, focus management and all rendering are not modelled.
- The delays before a follow-up update (150, 300, 500, 600, 800, 1500 ms) are not modelled. A delayed update is a separate step the caller performs: `Quiz.PickRandomVerb` after a success, `TimeAttack.StartRound` after an answer, `Match.ClearWrong` after a mismatch. Interleavings of timers with clicks are not modelled.
- The report text and the clipboard copy of `handleCopyReport` are not modelled. Only the rank and the two status lists it is built from are modelled.
- Quest item ids are modelled as a pair of the clock reading (`Date.now()`) and the position, a parameter of `Quest.StartNewRound`. Match card ids (`base-i`, `target-i`) are modelled as a datatype rather than strings.
- The verb catalogue (`constants`) is a parameter of each component; its contents are not part of this model. The Dashboard, StudyGroups and App files are not part of this model.
- `types.ts` declares a `QuizState` with 'correct'/'incorrect' feedback, but the quiz component keeps 'success'/'error'; the model follows the component.
- The Quest spelling check splits alternates on " / " while the quiz splits on "/"; each is modelled as its code is written.
- The rejection loops that draw random forms (`generateOptions` in Quest and in the time attack) are modelled by their accepted draws only, so each model requires that an accepted draw exists. `QuestGame.Playable` asks that, for every question of a round, two smart distractors exist or the catalogue has enough other forms to top them up (`QuestOptions.CanFill`); the Quest loop cannot end otherwise. `TimeAttackGame.Playable` asks that every question the component can ask has three forms the filter keeps; the time-attack loop cannot end otherwise. Both conditions are requirements on the catalogue, which is not part of this model. A catalogue with no non-modal verb (Quest) or no verb at all (time attack) is excluded too: there the source throws a TypeError on `undefined` (`generateOptions(undefined)` when a round starts, `randomVerb.category` in `startRound`), which this model does not represent.
- QuestOptions.GenerateOptions: when fewer than two smart distractors exist, the catalogue forms it adds may contain the answer as a piece (the source only excludes the answer itself), so only the two-smart-distractor case promises that the answer alone passes the Choice check.
- Text.Lower: `toLowerCase` is modelled on the ASCII letters only. Other upper-case letters (such as U+212A KELVIN SIGN, which JavaScript folds to "k") and letters that fold to several characters are compared as typed, so the model rejects a few inputs the source accepts.
- Flashcards while loading: the handlers, the current card and the counter require a non-empty deck, because the component shows only "Loading..." until the deck is there.
- Quest.Tick and Quest.Damage require the battle to be on screen (no game over, campfire or report), because the interval and the buttons exist only then.

## Findings

| source | as written | input that shows it | evidently intended | confidence | as-written member | corrected member |
|---|---|---|---|---|---|---|
| components/TimeAttack.tsx:48 | The distractor filter only rejects the answer itself and forms with "/". The answer check at line 80 is `correctAnswer.includes(option)` | The verb bite/bit/bitten asked for the participle "bitten": the catalogue form "bit" passes the filter, and pressing it scores +100 | No distractor is accepted as right: the filter also rejects forms contained in the answer, as the Quest's filter does | not executed | TimeAttackGame.WrongButtonScoresInGame | TimeAttackGame.GenerateOptionsCorrected |
