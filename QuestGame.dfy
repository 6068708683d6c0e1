/**
 * The Quest battle (components/QuestGame.tsx): a round of up to five enemies, each beaten
 * by two correct answers, first a multiple choice that breaks its shield and then the
 * spelled form that finishes it. Mistakes and time-outs cost a heart and send the enemy
 * to the back of the queue; every fifth defeat heals a heart.
 */
module QuestGame {
  import opened Wrappers
  import opened Verbs
  import opened Collections
  import opened QuestRules
  import opened QuestHistory
  import opened QuestOptions

  const RoundSize: nat := 5
  const MaxHearts: int := 5
  const HealEvery: nat := 5
  const ChoicePoints: nat := 20
  const SpellPoints: nat := 50

  /** The two phases of an enemy: break the shield (multiple choice), then finish it (spelling). */
  datatype Stage = Choice | Spell

  /** `monster-<Date.now()>-<i>`: the clock reading of the round start and the position. */
  datatype ItemId = ItemId(stamp: nat, index: nat)

  /** An enemy of the round. */
  datatype QuestItem = QuestItem(id: ItemId, verb: Verb, targetForm: Form, stage: Stage, mistakes: nat)

  function ItemAnswer(item: QuestItem): string {
    Answer(item.verb, item.targetForm)
  }

  function Ids(q: seq<QuestItem>): (r: seq<ItemId>)
    ensures |r| == |q| && forall i :: 0 <= i < |q| ==> r[i] == q[i].id
  {
    seq(|q|, i requires 0 <= i < |q| => q[i].id)
  }

  function VerbsOf(q: seq<QuestItem>): (r: seq<Verb>)
    ensures |r| == |q| && forall i :: 0 <= i < |q| ==> r[i] == q[i].verb
  {
    seq(|q|, i requires 0 <= i < |q| => q[i].verb)
  }

  /** Correct answers still needed to clear the queue: two for a shielded enemy, one otherwise. */
  function HitsNeeded(q: seq<QuestItem>): nat {
    if q == [] then 0 else (if q[0].stage == Choice then 2 else 1) + HitsNeeded(q[1..])
  }

  lemma {:induction false} HitsNeededAppend(a: seq<QuestItem>, b: seq<QuestItem>)
    ensures HitsNeeded(a + b) == HitsNeeded(a) + HitsNeeded(b)
  {
    if a == [] {
      assert a + b == b;
    } else {
      assert (a + b)[1..] == a[1..] + b;
      HitsNeededAppend(a[1..], b);
    }
  }

  /** A fresh round, all shields up, needs exactly two correct answers per enemy. */
  lemma {:induction false} HitsNeededFresh(q: seq<QuestItem>)
    requires forall i :: 0 <= i < |q| ==> q[i].stage == Choice
    ensures HitsNeeded(q) == 2 * |q|
  {
    if q != [] {
      HitsNeededFresh(q[1..]);
    }
  }

  /** The round's queue: at most five enemies with distinct ids, all non-modal catalogue verbs. */
  predicate QueueOk(q: seq<QuestItem>, catalog: seq<Verb>) {
    |q| <= RoundSize
    && Distinct(Ids(q))
    && forall i :: 0 <= i < |q| ==> q[i].verb in catalog && q[i].verb.category != MODAL
  }

  /**
   * Sending the head to the back (after a mistake or a broken shield) keeps the queue's
   * enemies: the same ids, all still valid.
   */
  lemma SendToBack(q: seq<QuestItem>, x: QuestItem, catalog: seq<Verb>)
    requires q != [] && QueueOk(q, catalog)
    requires x.id == q[0].id && x.verb == q[0].verb
    ensures QueueOk(q[1..] + [x], catalog)
    ensures multiset(Ids(q[1..] + [x])) == multiset(Ids(q))
  {
    assert Ids(q[1..] + [x]) == Ids(q)[1..] + [Ids(q)[0]];
    assert Ids(q) == [Ids(q)[0]] + Ids(q)[1..];
  }

  /** Sending the head to the back changes the answers still needed only by its own change. */
  lemma SendToBackHits(q: seq<QuestItem>, x: QuestItem)
    requires q != []
    ensures HitsNeeded(q[1..] + [x]) == HitsNeeded(q) - HitsNeeded([q[0]]) + HitsNeeded([x])
  {
    HitsNeededAppend(q[1..], [x]);
  }

  /** Removing the defeated head keeps the rest of the queue valid and needs one hit less. */
  lemma DropHead(q: seq<QuestItem>, catalog: seq<Verb>)
    requires q != [] && QueueOk(q, catalog) && q[0].stage == Spell
    ensures QueueOk(q[1..], catalog)
    ensures HitsNeeded(q[1..]) == HitsNeeded(q) - 1
  {
    assert Ids(q[1..]) == Ids(q)[1..];
  }

  /**
   * The catalogue can run the game: a non-modal verb exists, and for every question a round
   * can ask the fallback loop of `generateOptions` can finish.
   */
  predicate Playable(catalog: seq<Verb>) {
    NonModal(catalog) != []
    && forall v, f :: v in catalog && v.category != MODAL ==>
         CanFill(SmartWrongs(v, f), Answer(v, f), Forms(catalog))
  }

  /** A catalogue with a non-modal verb and three distinct forms can run the game. */
  lemma ThreeFormsPlayable(catalog: seq<Verb>)
    requires NonModal(catalog) != [] && |Forms(catalog)| >= 3
    ensures Playable(catalog)
  {
    forall v, f | v in catalog && v.category != MODAL
      ensures CanFill(SmartWrongs(v, f), Answer(v, f), Forms(catalog))
    {
      OptionsAvailable(catalog, v, f);
    }
  }

  /** `Math.min(hearts + 1, 5)` on every fifth defeat. */
  function HealedHearts(hearts: int, defeated: nat): (h: int)
    requires 0 <= hearts <= MaxHearts
    ensures hearts <= h <= MaxHearts
    ensures h == hearts + 1 <==> defeated % HealEvery == 0 && hearts < MaxHearts
    ensures defeated % HealEvery != 0 ==> h == hearts
  {
    if defeated % HealEvery == 0 then Min(hearts + 1, MaxHearts) else hearts
  }

  // ---------------------------------------------------------------------------
  // The component state and its updaters
  // ---------------------------------------------------------------------------

  /**
   * The component's `GameState` record, replaced as a whole by each `setState` updater.
   * The animation flags and the hit text are not part of the model.
   */
  datatype GameState = GameState(
    totalDefeated: nat,
    hearts: int,
    score: nat,
    queue: seq<QuestItem>,
    currentItem: Option<QuestItem>,
    options: seq<string>,
    gameOver: bool,
    timeLeft: int,
    totalTime: int,
    showRoundSummary: bool,
    showFinalReport: bool,
    sessionHistory: seq<SessionLog>)

  /** The state on mount: five hearts, fifteen seconds, nothing else yet. */
  function InitialState(): GameState {
    GameState(0, MaxHearts, 0, [], None, [], false, 15, 15, false, false, [])
  }

  /** The buttons on screen fit the enemy on screen. */
  predicate ShowsOptions(s: GameState) {
    s.currentItem.Some? ==> OptionsFor(s.options, ItemAnswer(s.currentItem.value))
  }

  /**
   * What holds between any two events: the shown enemy is the head of a valid queue and its
   * buttons offer its answer, hearts stay within 0..5 and the game is over exactly at zero,
   * the clock stays within the budget of 5..15 seconds, the campfire shows only once the
   * queue is empty, and the log has one consistent entry per (verb, form).
   */
  predicate Consistent(s: GameState, catalog: seq<Verb>) {
    QueueOk(s.queue, catalog)
    && s.currentItem == (if s.queue == [] then None else Some(s.queue[0]))
    && ShowsOptions(s)
    && 0 <= s.hearts <= MaxHearts && (s.gameOver <==> s.hearts == 0)
    && 5 <= s.totalTime <= 15 && 1 <= s.timeLeft <= s.totalTime
    && (s.showRoundSummary ==> s.queue == [])
    && ValidHistory(s.sessionHistory)
  }

  /** The battle screen is shown: no game over, no campfire, no report. */
  predicate InPlay(s: GameState) {
    !s.gameOver && !s.showRoundSummary && !s.showFinalReport
  }

  /** `prev.queue.slice(1)`, which is empty for an empty queue. */
  function Rest(q: seq<QuestItem>): (r: seq<QuestItem>)
    ensures q != [] ==> r == q[1..]
    ensures |r| == if q == [] then 0 else |q| - 1
  {
    if q == [] then [] else q[1..]
  }

  /**
   * The queue `startNewRound` builds from the drawn verbs and forms: one shielded enemy per
   * verb, with no mistakes, its id made of the clock reading and its position.
   */
  function FreshQueue(stamp: nat, chosen: seq<Verb>, forms: seq<Form>): (q: seq<QuestItem>)
    requires |forms| == |chosen|
    ensures |q| == |chosen| && VerbsOf(q) == chosen
  {
    seq(|chosen|, i requires 0 <= i < |chosen| => QuestItem(ItemId(stamp, i), chosen[i], forms[i], Choice, 0))
  }

  /** The updater of `startNewRound`; `opts` is what `generateOptions` returns for the first enemy. */
  function RoundStarted(prev: GameState, newQueue: seq<QuestItem>, opts: seq<string>): GameState
    requires newQueue != []
  {
    var baseTime := TimeBudget(prev.totalDefeated);
    prev.(queue := newQueue, currentItem := Some(newQueue[0]), options := opts,
          timeLeft := baseTime, totalTime := baseTime, showRoundSummary := false)
  }

  /**
   * The updater of `handleDamage`: with no enemy shown nothing changes; otherwise one heart
   * less (the game ends at none), the enemy goes to the back with one more mistake, the log
   * records the mistake, the next enemy is shown with `opts` and the clock restarts.
   */
  function Damaged(prev: GameState, opts: seq<string>): GameState {
    match prev.currentItem
    case None => prev
    case Some(item) =>
      var current := item.(mistakes := item.mistakes + 1);
      var newQueue := Rest(prev.queue) + [current];
      var newHearts := prev.hearts - 1;
      prev.(hearts := newHearts, gameOver := newHearts <= 0, queue := newQueue,
            currentItem := Some(newQueue[0]), options := opts, timeLeft := prev.totalTime,
            sessionHistory := RecordMistake(prev.sessionHistory, current.verb.base, current.targetForm))
  }

  /** With no enemy shown, damage changes nothing. */
  lemma DamageWithoutEnemy(s: GameState, opts: seq<string>)
    requires s.currentItem.None?
    ensures Damaged(s, opts) == s
  {
  }

  /** The updater of `triggerSuccessEffect`: the points are added at once. */
  function Scored(prev: GameState, points: nat): GameState {
    prev.(score := prev.score + points)
  }

  /**
   * The updater of a correct choice: the shield breaks and the enemy, now to be spelled,
   * goes to the back; the next enemy is shown with `opts` and the clock restarts.
   */
  function ShieldBroken(prev: GameState, opts: seq<string>): GameState {
    match prev.currentItem
    case None => prev
    case Some(item) =>
      var newQueue := Rest(prev.queue) + [item.(stage := Spell)];
      prev.(queue := newQueue, currentItem := Some(newQueue[0]), options := opts,
            timeLeft := prev.totalTime)
  }

  /**
   * The updater of a correct spelling of `verb` in `form`: one more defeat (healing a heart
   * on every fifth), a PERFECT log entry when the pair has none, and the head removed; an
   * empty queue leads to the campfire, otherwise the next enemy is shown with `opts`.
   */
  function Defeated(prev: GameState, verb: string, form: Form, opts: seq<string>): GameState
    requires 0 <= prev.hearts <= MaxHearts
  {
    var newDefeated := prev.totalDefeated + 1;
    var hearts := HealedHearts(prev.hearts, newDefeated);
    var history := RecordSuccess(prev.sessionHistory, verb, form);
    var remaining := Rest(prev.queue);
    if remaining == [] then
      prev.(totalDefeated := newDefeated, hearts := hearts, queue := [], currentItem := None,
            showRoundSummary := true, sessionHistory := history)
    else
      prev.(totalDefeated := newDefeated, hearts := hearts, queue := remaining,
            currentItem := Some(remaining[0]), options := opts, timeLeft := prev.totalTime,
            sessionHistory := history)
  }

  /** The interval's updater: at the last second the clock restarts, otherwise it counts down. */
  function Ticked(prev: GameState): GameState {
    if prev.timeLeft <= 1 then prev.(timeLeft := prev.totalTime) else prev.(timeLeft := prev.timeLeft - 1)
  }

  /** The updater of `finishSession`. */
  function Finished(prev: GameState): GameState {
    prev.(showFinalReport := true, showRoundSummary := false)
  }

  // ---------------------------------------------------------------------------
  // What the updaters keep and change
  // ---------------------------------------------------------------------------

  lemma InitialConsistent(catalog: seq<Verb>)
    ensures Consistent(InitialState(), catalog) && InPlay(InitialState())
    ensures InitialState().currentItem.None? && HitsNeeded(InitialState().queue) == 0
  {
  }

  /**
   * A new round of distinct catalogue verbs is a valid queue of shielded enemies that needs
   * two correct answers per enemy, and starting it keeps the state consistent with a clock
   * set to the budget the defeats so far allow.
   */
  lemma RoundStartKeeps(s: GameState, catalog: seq<Verb>, stamp: nat, chosen: seq<Verb>, forms: seq<Form>, opts: seq<string>)
    requires Consistent(s, catalog) && |forms| == |chosen|
    requires 1 <= |chosen| <= RoundSize && multiset(chosen) <= multiset(NonModal(catalog))
    requires OptionsFor(opts, ItemAnswer(FreshQueue(stamp, chosen, forms)[0]))
    ensures var t := RoundStarted(s, FreshQueue(stamp, chosen, forms), opts);
            && Consistent(t, catalog) && HitsNeeded(t.queue) == 2 * |chosen|
            && t.timeLeft == t.totalTime == TimeBudget(s.totalDefeated)
            && (forall i :: 0 <= i < |t.queue| ==> t.queue[i].stage == Choice && t.queue[i].mistakes == 0)
            && t.hearts == s.hearts && t.score == s.score && t.sessionHistory == s.sessionHistory
  {
    var q := FreshQueue(stamp, chosen, forms);
    forall i | 0 <= i < |q| ensures q[i].verb in catalog && q[i].verb.category != MODAL {
      assert q[i].verb == chosen[i];
      assert chosen[i] in multiset(NonModal(catalog));
    }
    assert Distinct(Ids(q));
    HitsNeededFresh(q);
  }

  /**
   * Damage keeps the state consistent (given buttons for the next enemy), costs exactly one
   * heart, ends the game exactly on the last heart, and keeps the score.
   */
  lemma DamageKeeps(s: GameState, catalog: seq<Verb>, opts: seq<string>)
    requires Consistent(s, catalog) && InPlay(s) && s.currentItem.Some?
    requires ShowsOptions(Damaged(s, opts))
    ensures var t := Damaged(s, opts);
            && Consistent(t, catalog)
            && t.hearts == s.hearts - 1 && (t.gameOver <==> s.hearts == 1) && t.score == s.score
  {
    var head := s.queue[0];
    SendToBack(s.queue, head.(mistakes := head.mistakes + 1), catalog);
  }

  /**
   * Damage keeps the same enemies with the same answers still needed, sends the struck one
   * to the back with one more mistake, and leaves the struck pair PRACTICED in the log.
   */
  lemma DamageRequeues(s: GameState, catalog: seq<Verb>, opts: seq<string>)
    requires Consistent(s, catalog) && s.currentItem.Some?
    ensures var t := Damaged(s, opts);
            && multiset(Ids(t.queue)) == multiset(Ids(s.queue))
            && HitsNeeded(t.queue) == HitsNeeded(s.queue)
            && t.queue == s.queue[1..] + [s.queue[0].(mistakes := s.queue[0].mistakes + 1)]
            && t.timeLeft == s.totalTime
            && var k := IndexOfEntry(t.sessionHistory, s.queue[0].verb.base, s.queue[0].targetForm);
               k >= 0 && t.sessionHistory[k].status == Practiced
  {
    var head := s.queue[0];
    var current := head.(mistakes := head.mistakes + 1);
    var t := Damaged(s, opts);
    assert t.queue == s.queue[1..] + [current];
    SendToBack(s.queue, current, catalog);
    SendToBackHits(s.queue, current);
    assert HitsNeeded([current]) == HitsNeeded([head]);
  }

  /**
   * A broken shield keeps the state consistent (given buttons for the next enemy), adds the
   * points, keeps the same enemies, and needs one correct answer less.
   */
  lemma ShieldBrokenKeeps(s: GameState, catalog: seq<Verb>, opts: seq<string>)
    requires Consistent(s, catalog) && InPlay(s) && s.currentItem.Some? && s.queue[0].stage == Choice
    requires ShowsOptions(ShieldBroken(Scored(s, ChoicePoints), opts))
    ensures var t := ShieldBroken(Scored(s, ChoicePoints), opts);
            && Consistent(t, catalog) && InPlay(t)
            && t.score == s.score + ChoicePoints && t.hearts == s.hearts
            && t.sessionHistory == s.sessionHistory
            && multiset(Ids(t.queue)) == multiset(Ids(s.queue))
            && HitsNeeded(t.queue) == HitsNeeded(s.queue) - 1
            && t.queue == s.queue[1..] + [s.queue[0].(stage := Spell)]
            && t.timeLeft == s.totalTime
  {
    var updated := s.queue[0].(stage := Spell);
    SendToBack(s.queue, updated, catalog);
    SendToBackHits(s.queue, updated);
  }

  /**
   * A correct spelling keeps the state consistent (given buttons for the next enemy) and
   * neither ends the game nor opens the report.
   */
  lemma DefeatKeeps(s: GameState, catalog: seq<Verb>, opts: seq<string>)
    requires Consistent(s, catalog) && InPlay(s) && s.currentItem.Some? && s.queue[0].stage == Spell
    requires ShowsOptions(Defeated(Scored(s, SpellPoints), s.queue[0].verb.base, s.queue[0].targetForm, opts))
    ensures var t := Defeated(Scored(s, SpellPoints), s.queue[0].verb.base, s.queue[0].targetForm, opts);
            Consistent(t, catalog) && !t.gameOver && !t.showFinalReport
  {
    DropHead(s.queue, catalog);
  }

  /**
   * A correct spelling scores 50 and one defeat, heals a heart by the every-fifth rule,
   * removes the enemy so that one correct answer less is needed, restarts the clock for the
   * next enemy, reaches the campfire exactly when the queue runs out, and logs the pair.
   */
  lemma DefeatOutcome(s: GameState, catalog: seq<Verb>, opts: seq<string>)
    requires QueueOk(s.queue, catalog) && s.queue != [] && s.queue[0].stage == Spell
    requires 0 <= s.hearts <= MaxHearts && !s.showRoundSummary
    ensures var t := Defeated(Scored(s, SpellPoints), s.queue[0].verb.base, s.queue[0].targetForm, opts);
            && t.score == s.score + SpellPoints && t.totalDefeated == s.totalDefeated + 1
            && t.hearts == HealedHearts(s.hearts, s.totalDefeated + 1)
            && t.queue == s.queue[1..] && HitsNeeded(t.queue) == HitsNeeded(s.queue) - 1
            && (t.queue != [] ==> t.timeLeft == s.totalTime)
            && (t.showRoundSummary <==> t.queue == [])
            && IndexOfEntry(t.sessionHistory, s.queue[0].verb.base, s.queue[0].targetForm) >= 0
  {
    DropHead(s.queue, catalog);
  }

  /** A tick keeps the state consistent; only the clock moves, and it restarts at the last second. */
  lemma TickKeeps(s: GameState, catalog: seq<Verb>)
    requires Consistent(s, catalog)
    ensures Consistent(Ticked(s), catalog)
    ensures Ticked(s).timeLeft == if s.timeLeft <= 1 then s.totalTime else s.timeLeft - 1
  {
  }

  /** Answers still needed fall by one with each correct answer and stay put with each mistake. */
  lemma ProgressOnlyOnHits(s: GameState, catalog: seq<Verb>, opts: seq<string>)
    requires Consistent(s, catalog) && InPlay(s) && s.currentItem.Some?
    ensures HitsNeeded(Damaged(s, opts).queue) == HitsNeeded(s.queue)
    ensures s.queue[0].stage == Choice ==>
              HitsNeeded(ShieldBroken(Scored(s, ChoicePoints), opts).queue) == HitsNeeded(s.queue) - 1
    ensures s.queue[0].stage == Spell ==>
              HitsNeeded(Defeated(Scored(s, SpellPoints), s.queue[0].verb.base, s.queue[0].targetForm, opts).queue)
              == HitsNeeded(s.queue) - 1
  {
    var head := s.queue[0];
    SendToBackHits(s.queue, head.(mistakes := head.mistakes + 1));
    if head.stage == Choice {
      SendToBackHits(s.queue, head.(stage := Spell));
    } else {
      DropHead(s.queue, catalog);
    }
  }

  // ---------------------------------------------------------------------------
  // The component
  // ---------------------------------------------------------------------------

  /**
   * The Quest component: the catalogue it reads and its one state record, which every
   * handler replaces through an updater as `setState` does.
   */
  class Quest {
    const catalog: seq<Verb>
    var state: GameState

    predicate Valid()
      reads this
    {
      Playable(catalog) && Consistent(state, catalog)
    }

    /** The component on mount, before its first round starts. */
    constructor (catalog: seq<Verb>)
      requires Playable(catalog)
      ensures Valid() && this.catalog == catalog && state == InitialState()
    {
      this.catalog := catalog;
      state := InitialState();
      InitialConsistent(catalog);
    }

    /**
     * `startNewRound`: up to five shuffled non-modal verbs, each asking a random form, all
     * shielded. `stamp` stands for the clock reading the ids are built from. It runs on
     * mount and from the campfire.
     */
    method StartNewRound(stamp: nat)
      requires Valid() && state.currentItem.None? && !state.gameOver && !state.showFinalReport
      modifies this
      ensures Valid() && InPlay(state)
      ensures exists chosen: seq<Verb>, forms: seq<Form> ::
                |forms| == |chosen| == Min(RoundSize, |NonModal(catalog)|)
                && multiset(chosen) <= multiset(NonModal(catalog))
                && state == RoundStarted(old(state), FreshQueue(stamp, chosen, forms), state.options)
      ensures HitsNeeded(state.queue) == 2 * |state.queue| && |state.queue| >= 1
    {
      var valid := NonModal(catalog);
      var shuffled: seq<Verb> :| multiset(shuffled) == multiset(valid);
      assert |shuffled| == |multiset(valid)| == |valid|;
      var chosen := shuffled[..Min(RoundSize, |shuffled|)];
      PrefixOfShuffle(valid, shuffled, |chosen|);
      assert |seq(|chosen|, _ => Past)| == |chosen|;
      var forms: seq<Form> :| |forms| == |chosen|;
      var newQueue := FreshQueue(stamp, chosen, forms);
      assert newQueue[0].verb in catalog by {
        assert chosen[0] in multiset(valid);
      }
      assert newQueue[0].verb.category != MODAL;
      var opts := GenerateOptions(newQueue[0].verb, newQueue[0].targetForm, catalog);
      RoundStartKeeps(state, catalog, stamp, chosen, forms, opts);
      state := RoundStarted(state, newQueue, opts);
    }

    /** `handleDamage`: the updater `Damaged`, with the buttons drawn for the next enemy. */
    method Damage()
      requires Valid() && InPlay(state)
      modifies this
      ensures Valid()
      ensures state == Damaged(old(state), state.options)
    {
      if state.currentItem.None? {
        return;
      }
      var head := state.queue[0];
      var next := (state.queue[1..] + [head.(mistakes := head.mistakes + 1)])[0];
      assert next.verb in catalog;
      assert next.verb.category != MODAL;
      var opts := GenerateOptions(next.verb, next.targetForm, catalog);
      DamageKeeps(state, catalog, opts);
      state := Damaged(state, opts);
    }

    /**
     * `handleChoice`: a button whose text is a piece of the answer scores and breaks the
     * shield; any other button is damage.
     */
    method HandleChoice(selected: string)
      requires Valid() && InPlay(state) && state.currentItem.Some? && state.currentItem.value.stage == Choice
      modifies this
      ensures Valid()
      ensures ChoiceMatches(selected, ItemAnswer(old(state).queue[0])) ==>
                state == ShieldBroken(Scored(old(state), ChoicePoints), state.options)
      ensures !ChoiceMatches(selected, ItemAnswer(old(state).queue[0])) ==>
                state == Damaged(old(state), state.options)
    {
      var head := state.queue[0];
      if ChoiceMatches(selected, ItemAnswer(head)) {
        var next := (state.queue[1..] + [head.(stage := Spell)])[0];
        assert next.verb in catalog;
        assert next.verb.category != MODAL;
        var opts := GenerateOptions(next.verb, next.targetForm, catalog);
        ShieldBrokenKeeps(state, catalog, opts);
        state := ShieldBroken(Scored(state, ChoicePoints), opts);
      } else {
        Damage();
      }
    }

    /**
     * `handleSpellingSubmit`: a correct spelling of the text field's `input` scores and
     * defeats the enemy; anything else is damage.
     */
    method HandleSpelling(input: string)
      requires Valid() && InPlay(state) && state.currentItem.Some? && state.currentItem.value.stage == Spell
      modifies this
      ensures Valid()
      ensures var head := old(state).queue[0];
              SpellingMatches(input, ItemAnswer(head)) ==>
                state == Defeated(Scored(old(state), SpellPoints), head.verb.base, head.targetForm, state.options)
      ensures !SpellingMatches(input, ItemAnswer(old(state).queue[0])) ==>
                state == Damaged(old(state), state.options)
    {
      var head := state.queue[0];
      if SpellingMatches(input, ItemAnswer(head)) {
        var opts := state.options;
        if |state.queue| > 1 {
          var next := state.queue[1];
          assert next.verb in catalog;
          assert next.verb.category != MODAL;
          opts := GenerateOptions(next.verb, next.targetForm, catalog);
        }
        DefeatKeeps(state, catalog, opts);
        state := Defeated(Scored(state, SpellPoints), head.verb.base, head.targetForm, opts);
      } else {
        Damage();
      }
    }

    /**
     * One second of the interval timer: the clock counts down, and at the last second it
     * restarts and the enemy strikes.
     */
    method Tick()
      requires Valid() && InPlay(state) && state.currentItem.Some?
      modifies this
      ensures Valid()
      ensures old(state).timeLeft > 1 ==> state == Ticked(old(state))
      ensures old(state).timeLeft <= 1 ==> state == Damaged(Ticked(old(state)), state.options)
    {
      var strike := state.timeLeft <= 1;
      TickKeeps(state, catalog);
      state := Ticked(state);
      if strike {
        Damage();
      }
    }

    /** `finishSession`: the final report, from the battle, the campfire or game over. */
    method FinishSession()
      requires Valid() && !state.showFinalReport
      modifies this
      ensures Valid()
      ensures state == Finished(old(state))
    {
      state := Finished(state);
    }
  }

  /** The first `k` verbs of a shuffle are drawn from the shuffled ones. */
  lemma PrefixOfShuffle(valid: seq<Verb>, shuffled: seq<Verb>, k: nat)
    requires multiset(shuffled) == multiset(valid) && k <= |shuffled|
    ensures multiset(shuffled[..k]) <= multiset(valid)
  {
    assert shuffled == shuffled[..k] + shuffled[k..];
  }
}
