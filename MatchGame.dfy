/**
 * The matching game (components/MatchGame.tsx): up to six non-modal verbs are dealt as pairs
 * of cards, a base card and a card with its past or its participle; the learner selects two
 * cards at a time and a pair with the same base and different kinds disappears.
 */
module MatchGame {
  import opened Wrappers
  import opened Verbs
  import opened Collections

  /** How many verbs a level deals. */
  const LevelVerbs: nat := 6

  // ---------------------------------------------------------------------------
  // Cards and decks
  // ---------------------------------------------------------------------------

  /** A card's id: `base-${i}` or `target-${i}` for the `i`-th dealt verb. */
  datatype CardId = BaseId(i: nat) | TargetId(i: nat)

  datatype CardKind = BaseCard | TargetCard

  /** `CardItem`: the text shown, the kind, and the base form that links the two cards of a pair. */
  datatype Card = Card(id: CardId, text: string, kind: CardKind, matchId: string)

  /** Two cards form a pair: the same base form, one of each kind. */
  predicate Matches(a: Card, b: Card) {
    a.matchId == b.matchId && a.kind != b.kind
  }

  /** The ids of a deck, in deck order. */
  function IdsOf(cards: seq<Card>): (r: seq<CardId>)
    ensures |r| == |cards| && forall k :: 0 <= k < |cards| ==> r[k] == cards[k].id
  {
    if cards == [] then [] else [cards[0].id] + IdsOf(cards[1..])
  }

  lemma IdIn(cards: seq<Card>, c: Card)
    requires c in cards
    ensures c.id in IdsOf(cards)
  {
    var k :| 0 <= k < |cards| && cards[k] == c;
    assert IdsOf(cards)[k] == c.id;
  }

  /** `cards.find(c => c.id === id)`: the first card with that id, if any. */
  function Find(cards: seq<Card>, id: CardId): (r: Option<Card>)
    ensures r.Some? ==> r.value in cards && r.value.id == id
    ensures r.None? ==> forall c :: c in cards ==> c.id != id
  {
    if cards == [] then None
    else if cards[0].id == id then Some(cards[0])
    else Find(cards[1..], id)
  }

  /** Every id of a deck finds a card. */
  lemma IdFound(cards: seq<Card>, id: CardId)
    requires id in IdsOf(cards)
    ensures Find(cards, id).Some?
  {
    var k :| 0 <= k < |cards| && IdsOf(cards)[k] == id;
    assert cards[k] in cards;
  }

  /** In a deck with distinct ids a card is found by its own id. */
  lemma FindsItself(cards: seq<Card>, c: Card)
    requires Distinct(IdsOf(cards)) && c in cards
    ensures Find(cards, c.id) == Some(c)
  {
    IdIn(cards, c);
    IdFound(cards, c.id);
    SameIdSameCard(cards, Find(cards, c.id).value, c);
  }

  /**
   * The card the `k`-th push of the deal loop makes from verb `v`: even positions are the
   * verb's base card, odd positions its target card, showing the past or the participle.
   */
  predicate DealtCard(c: Card, v: Verb, k: nat) {
    c.matchId == v.base
    && if k % 2 == 0 then c == Card(BaseId(k / 2), v.base, BaseCard, v.base)
       else c.id == TargetId(k / 2) && c.kind == TargetCard && (c.text == v.past || c.text == v.participle)
  }

  /** The deck the `forEach` loop of `startLevel` builds from the chosen verbs, before shuffling. */
  predicate Dealt(cards: seq<Card>, chosen: seq<Verb>) {
    |cards| == 2 * |chosen| && forall k :: 0 <= k < |cards| ==> DealtCard(cards[k], chosen[k / 2], k)
  }

  /** Every card of the deck has another card of the deck it matches. */
  predicate HasPartners(cards: seq<Card>) {
    forall c :: c in cards ==> exists d :: d in cards && d.id != c.id && Matches(c, d)
  }

  /** The position of the other card of the same verb in a dealt deck. */
  function PartnerIndex(k: nat): nat {
    if k % 2 == 0 then k + 1 else k - 1
  }

  /** In a dealt deck ids are distinct. */
  lemma DealtIdsDistinct(cards: seq<Card>, chosen: seq<Verb>)
    requires Dealt(cards, chosen)
    ensures Distinct(IdsOf(cards))
  {
    var ids := IdsOf(cards);
    forall p, q | 0 <= p < q < |ids| ensures ids[p] != ids[q] {
      assert DealtCard(cards[p], chosen[p / 2], p) && DealtCard(cards[q], chosen[q / 2], q);
    }
  }

  /** In a dealt deck each card matches the other card of its verb. */
  lemma DealtPartner(cards: seq<Card>, chosen: seq<Verb>, k: nat)
    requires Dealt(cards, chosen) && k < |cards|
    ensures PartnerIndex(k) < |cards| && PartnerIndex(k) != k
    ensures cards[PartnerIndex(k)].id != cards[k].id && Matches(cards[k], cards[PartnerIndex(k)])
  {
    var p := PartnerIndex(k);
    assert p / 2 == k / 2;
    assert DealtCard(cards[k], chosen[k / 2], k) && DealtCard(cards[p], chosen[p / 2], p);
  }

  /** A deal in any order: the deck `startLevel` hands to the grid. */
  ghost predicate ShuffledDeal(deck: seq<Card>) {
    exists chosen: seq<Verb>, dealt: seq<Card> :: Dealt(dealt, chosen) && multiset(deck) == multiset(dealt)
  }

  /** A dealt deck in any order has distinct ids, and every card has a partner to match. */
  lemma ShuffledDeck(deck: seq<Card>, dealt: seq<Card>, chosen: seq<Verb>)
    requires Dealt(dealt, chosen) && multiset(deck) == multiset(dealt)
    ensures Distinct(IdsOf(deck)) && HasPartners(deck) && |deck| == |dealt|
  {
    DealtIdsDistinct(dealt, chosen);
    PermutationSameValues(dealt, deck);
    assert |deck| == |multiset(deck)| == |dealt|;
    forall c | c in deck ensures exists d :: d in deck && d.id != c.id && Matches(c, d) {
      var k :| 0 <= k < |dealt| && dealt[k] == c;
      DealtPartner(dealt, chosen, k);
      assert dealt[PartnerIndex(k)] in dealt;
    }
    ShuffledIdsDistinct(deck, dealt);
  }

  /** Reordering a deck with distinct ids keeps them distinct. */
  lemma ShuffledIdsDistinct(deck: seq<Card>, dealt: seq<Card>)
    requires Distinct(IdsOf(dealt)) && multiset(deck) == multiset(dealt)
    ensures Distinct(IdsOf(deck))
  {
    PermutationSameValues(dealt, deck);
    var ids := IdsOf(deck);
    forall p, q | 0 <= p < q < |ids| ensures ids[p] != ids[q] {
      if ids[p] == ids[q] {
        SameIdSameCard(dealt, deck[p], deck[q]);
        TwiceCounted(deck, p, q);
        DistinctMultiset(dealt, deck[p]);
      }
    }
  }

  /** On any deck `startLevel` deals, every card can still be matched. */
  lemma DealHasPartners(deck: seq<Card>)
    requires ShuffledDeal(deck)
    ensures Distinct(IdsOf(deck)) && HasPartners(deck)
  {
    var chosen: seq<Verb>, dealt: seq<Card> :| Dealt(dealt, chosen) && multiset(deck) == multiset(dealt);
    ShuffledDeck(deck, dealt, chosen);
  }

  /** Two cards of a deck with distinct ids that share an id are the same card. */
  lemma SameIdSameCard(cards: seq<Card>, a: Card, b: Card)
    requires Distinct(IdsOf(cards)) && a in cards && b in cards && a.id == b.id
    ensures a == b
  {
    var ids := IdsOf(cards);
    var i :| 0 <= i < |cards| && cards[i] == a;
    var j :| 0 <= j < |cards| && cards[j] == b;
    assert ids[i] == a.id && ids[j] == b.id;
    DistinctIndex(ids, i, j);
  }

  /** In a deck with distinct ids no card occurs twice. */
  lemma DistinctMultiset(cards: seq<Card>, c: Card)
    requires Distinct(IdsOf(cards))
    ensures multiset(cards)[c] <= 1
  {
    forall i, j | 0 <= i < j < |cards| ensures cards[i] != cards[j] {
      assert IdsOf(cards)[i] != IdsOf(cards)[j];
    }
    DistinctCount(cards, c);
  }

  /** The `forEach` loop of `startLevel`: two cards per chosen verb, in order. */
  method DealCards(chosen: seq<Verb>) returns (newCards: seq<Card>)
    ensures Dealt(newCards, chosen)
  {
    newCards := [];
    var i := 0;
    while i < |chosen|
      invariant 0 <= i <= |chosen|
      invariant Dealt(newCards, chosen[..i])
    {
      var v := chosen[i];
      var targetText: string :| targetText == v.past || targetText == v.participle;
      var prev := newCards;
      newCards := newCards + [Card(BaseId(i), v.base, BaseCard, v.base),
                              Card(TargetId(i), targetText, TargetCard, v.base)];
      forall k | 0 <= k < |newCards| ensures DealtCard(newCards[k], chosen[..i + 1][k / 2], k) {
        if k < |prev| {
          assert DealtCard(prev[k], chosen[..i][k / 2], k);
        } else {
          assert k / 2 == i;
        }
      }
      i := i + 1;
    }
    assert chosen[..i] == chosen;
  }

  // ---------------------------------------------------------------------------
  // The component state and its updates
  // ---------------------------------------------------------------------------

  /** The component's state hooks. */
  datatype MatchState = MatchState(
    cards: seq<Card>,
    selectedId: Option<CardId>,
    matchedIds: set<CardId>,
    wrongIds: set<CardId>)

  /** The state on mount, before the first deal. */
  function InitialMatch(): MatchState {
    MatchState([], None, {}, {})
  }

  /** The updates of `startLevel` once the deck is dealt and shuffled; `wrongIds` is left alone. */
  function LevelStarted(s: MatchState, deck: seq<Card>): MatchState {
    s.(cards := deck, matchedIds := {}, selectedId := None)
  }

  /**
   * `handleCardClick`: matched and flagged cards ignore clicks; the first click selects, a
   * click on the selected card deselects, and a second card either completes a pair (both
   * are matched and the selection clears) or flags both cards as wrong, the selection staying.
   */
  function Clicked(s: MatchState, card: Card): MatchState {
    if card.id in s.matchedIds || card.id in s.wrongIds then s
    else if s.selectedId.None? then s.(selectedId := Some(card.id))
    else if s.selectedId.value == card.id then s.(selectedId := None)
    else
      match Find(s.cards, s.selectedId.value)
      case None => s
      case Some(first) =>
        if Matches(first, card) then
          s.(matchedIds := s.matchedIds + {first.id, card.id}, selectedId := None)
        else
          s.(wrongIds := {first.id, card.id})
  }

  /** The timeout after a wrong pair: the flags and the selection clear. */
  function WrongCleared(s: MatchState): MatchState {
    s.(wrongIds := {}, selectedId := None)
  }

  /** `isComplete`: a non-empty deck whose every card is matched, counted by size. */
  predicate IsComplete(s: MatchState) {
    |s.cards| > 0 && |s.matchedIds| == |s.cards|
  }

  /**
   * What holds between events: card ids are distinct, matched ids are ids of the deck and
   * come in pairs, and a selected card is an unmatched card.
   */
  predicate Consistent(s: MatchState) {
    Distinct(IdsOf(s.cards))
    && s.matchedIds <= Elements(IdsOf(s.cards))
    && |s.matchedIds| % 2 == 0
    && (s.selectedId.Some? ==> s.selectedId.value in IdsOf(s.cards) && s.selectedId.value !in s.matchedIds)
  }

  // ---------------------------------------------------------------------------
  // What the updates keep and change
  // ---------------------------------------------------------------------------

  /** A level with every card matched is complete, and only such a level. */
  lemma CompleteIffAllMatched(s: MatchState)
    requires Consistent(s)
    ensures IsComplete(s) <==> s.cards != [] && forall c :: c in s.cards ==> c.id in s.matchedIds
  {
    var ids := Elements(IdsOf(s.cards));
    DistinctCard(IdsOf(s.cards));
    if IsComplete(s) {
      SubsetSameSize(s.matchedIds, ids);
      forall c | c in s.cards ensures c.id in s.matchedIds {
        IdIn(s.cards, c);
      }
    }
    if s.cards != [] && forall c :: c in s.cards ==> c.id in s.matchedIds {
      forall id | id in ids ensures id in s.matchedIds {
        var k :| 0 <= k < |s.cards| && IdsOf(s.cards)[k] == id;
        assert s.cards[k] in s.cards;
      }
      assert s.matchedIds == ids;
    }
  }

  /** A click on a card of the deck keeps the state consistent and the deck unchanged. */
  lemma ClickKeeps(s: MatchState, card: Card)
    requires Consistent(s) && card in s.cards
    ensures Consistent(Clicked(s, card)) && Clicked(s, card).cards == s.cards
  {
    var t := Clicked(s, card);
    var ids := IdsOf(s.cards);
    IdIn(s.cards, card);
    if !(card.id in s.matchedIds || card.id in s.wrongIds) && s.selectedId.Some? && s.selectedId.value != card.id {
      var a := s.selectedId.value;
      IdFound(s.cards, a);
      if Matches(Find(s.cards, a).value, card) {
        assert a in Elements(ids) && card.id in Elements(ids);
        PairAdded(s.matchedIds, a, card.id);
      }
    }
  }

  /** Adding two new ids to an even number of matched ids leaves an even number. */
  lemma PairAdded(m: set<CardId>, a: CardId, b: CardId)
    requires |m| % 2 == 0 && a !in m && b !in m && a != b
    ensures |m + {a, b}| % 2 == 0
  {
    assert m + {a, b} == (m + {a}) + {b};
    assert |m + {a, b}| == |m| + 2;
  }

  /**
   * Matched cards only ever grow, and only by a matching pair made of the selected card and
   * the clicked one; a click on a matched or flagged card changes nothing.
   */
  lemma ClickMatchesPairs(s: MatchState, card: Card)
    requires Consistent(s) && card in s.cards
    ensures var t := Clicked(s, card);
            && s.matchedIds <= t.matchedIds
            && (t.matchedIds != s.matchedIds ==>
                  s.selectedId.Some? && s.selectedId.value != card.id
                  && Matches(Find(s.cards, s.selectedId.value).value, card)
                  && t.matchedIds == s.matchedIds + {s.selectedId.value, card.id})
            && (card.id in s.matchedIds || card.id in s.wrongIds ==> t == s)
  {
    if !(card.id in s.matchedIds || card.id in s.wrongIds) && s.selectedId.Some? && s.selectedId.value != card.id {
      IdFound(s.cards, s.selectedId.value);
    }
  }

  /** With nothing selected, clicking two unflagged cards of a pair matches exactly those two. */
  lemma PairDisappears(s: MatchState, a: Card, b: Card)
    requires Consistent(s) && s.selectedId.None? && a in s.cards && b in s.cards
    requires a.id != b.id && Matches(a, b)
    requires a.id !in s.matchedIds && a.id !in s.wrongIds && b.id !in s.matchedIds && b.id !in s.wrongIds
    ensures Clicked(Clicked(s, a), b) == s.(matchedIds := s.matchedIds + {a.id, b.id})
  {
    FindsItself(s.cards, a);
  }

  /**
   * With nothing selected, clicking two cards that do not match flags both and keeps the
   * first selected, until the timeout clears both the flags and the selection.
   */
  lemma MismatchFlagged(s: MatchState, a: Card, b: Card)
    requires Consistent(s) && s.selectedId.None? && a in s.cards && b in s.cards
    requires a.id != b.id && !Matches(a, b)
    requires a.id !in s.matchedIds && a.id !in s.wrongIds && b.id !in s.matchedIds && b.id !in s.wrongIds
    ensures Clicked(Clicked(s, a), b) == s.(selectedId := Some(a.id), wrongIds := {a.id, b.id})
    ensures WrongCleared(Clicked(Clicked(s, a), b)) == s.(wrongIds := {})
  {
    FindsItself(s.cards, a);
  }

  /** Clicking a card twice selects and deselects it: the state is as before. */
  lemma SecondClickDeselects(s: MatchState, a: Card)
    requires s.selectedId.None? && a.id !in s.matchedIds && a.id !in s.wrongIds
    ensures Clicked(s, a).selectedId == Some(a.id)
    ensures Clicked(Clicked(s, a), a) == s
  {
  }

  /** A new level starts consistent and unfinished, with the dealt deck in any order. */
  lemma LevelStartKeeps(s: MatchState, deck: seq<Card>, dealt: seq<Card>, chosen: seq<Verb>)
    requires Dealt(dealt, chosen) && multiset(deck) == multiset(dealt)
    ensures Consistent(LevelStarted(s, deck)) && !IsComplete(LevelStarted(s, deck))
    ensures |LevelStarted(s, deck).cards| == 2 * |chosen|
  {
    DealtIdsDistinct(dealt, chosen);
    PermutationSameValues(dealt, deck);
    assert |deck| == |multiset(deck)| == |dealt|;
    ShuffledIdsDistinct(deck, dealt);
  }

  /** A card the deal makes from a non-modal catalogue verb: its base, past or participle. */
  predicate FromCatalog(c: Card, catalog: seq<Verb>) {
    exists v :: v in catalog && v.category != MODAL && c.matchId == v.base
                && (c.text == v.base || c.text == v.past || c.text == v.participle)
  }

  /**
   * A level dealt as `startLevel` deals it: two cards for each of the first
   * min(6, non-modal count) verbs of a shuffle of the non-modal verbs, in any order.
   */
  ghost predicate DealtFrom(deck: seq<Card>, catalog: seq<Verb>) {
    exists chosen: seq<Verb>, dealt: seq<Card> ::
      multiset(chosen) <= multiset(NonModal(catalog))
      && |chosen| == Min(LevelVerbs, |NonModal(catalog)|)
      && Dealt(dealt, chosen) && multiset(deck) == multiset(dealt)
  }

  // ---------------------------------------------------------------------------
  // The component
  // ---------------------------------------------------------------------------

  /** The Match component: the catalogue it reads and its state. */
  class Match {
    const catalog: seq<Verb>
    var state: MatchState

    ghost predicate Valid()
      reads this
    {
      Consistent(state) && ShuffledDeal(state.cards)
      && forall c :: c in state.cards ==> FromCatalog(c, catalog)
    }

    /** The component on mount, before its first deal. */
    constructor (catalog: seq<Verb>)
      ensures Valid() && this.catalog == catalog && state == InitialMatch()
    {
      this.catalog := catalog;
      state := InitialMatch();
      assert Dealt([], []);
    }

    /**
     * `startLevel`: shuffle the non-modal verbs, take the first six (or all when fewer),
     * deal two cards for each and shuffle the deck. It runs on mount and from "Next Level".
     */
    method StartLevel()
      requires Valid()
      modifies this
      ensures Valid() && !IsComplete(state)
      ensures |state.cards| == 2 * Min(LevelVerbs, |NonModal(catalog)|)
      ensures DealtFrom(state.cards, catalog)
      ensures state == LevelStarted(old(state), state.cards)
    {
      var validVerbs := NonModal(catalog);
      var shuffled: seq<Verb> :| multiset(shuffled) == multiset(validVerbs);
      PermutationSameValues(validVerbs, shuffled);
      assert |shuffled| == |multiset(shuffled)| == |validVerbs|;
      var chosen := shuffled[..Min(LevelVerbs, |shuffled|)];
      assert multiset(chosen) <= multiset(validVerbs) by {
        assert shuffled == chosen + shuffled[|chosen|..];
      }
      var newCards := DealCards(chosen);
      var deck: seq<Card> :| multiset(deck) == multiset(newCards);
      LevelStartKeeps(state, deck, newCards, chosen);
      PermutationSameValues(newCards, deck);
      forall c | c in deck ensures FromCatalog(c, catalog) {
        var k :| 0 <= k < |newCards| && newCards[k] == c;
        var v := chosen[k / 2];
        assert DealtCard(newCards[k], v, k);
        assert v in shuffled;
      }
      state := LevelStarted(state, deck);
    }

    /** `handleCardClick` on a card of the grid. */
    method HandleCardClick(card: Card)
      requires Valid() && card in state.cards
      modifies this
      ensures Valid() && state == Clicked(old(state), card)
    {
      ClickKeeps(state, card);
      state := Clicked(state, card);
    }

    /** The timeout after a wrong pair. */
    method ClearWrong()
      requires Valid()
      modifies this
      ensures Valid() && state == WrongCleared(old(state))
    {
      state := WrongCleared(state);
    }
  }
}
