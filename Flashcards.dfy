/**
 * Flashcards (components/Flashcards.tsx): the catalogue, shuffled once on mount, shown one
 * card at a time with the base form in front and the past and participle behind; "next" and
 * "previous" move round the deck, a tap flips the card.
 */
module FlashcardDeck {
  import opened Verbs

  /** `(prev + 1) % length`: the card after `i`, wrapping round to the first. */
  function NextIndex(i: int, n: int): (r: int)
    requires 0 <= i < n
    ensures 0 <= r < n
    ensures r == (if i == n - 1 then 0 else i + 1)
  {
    (i + 1) % n
  }

  /** `(prev - 1 + length) % length`: the card before `i`, wrapping round to the last. */
  function PrevIndex(i: int, n: int): (r: int)
    requires 0 <= i < n
    ensures 0 <= r < n
    ensures r == (if i == 0 then n - 1 else i - 1)
  {
    (i - 1 + n) % n
  }

  /** "Previous" undoes "next" and "next" undoes "previous". */
  lemma NextPrevInverse(i: int, n: int)
    requires 0 <= i < n
    ensures PrevIndex(NextIndex(i, n), n) == i
    ensures NextIndex(PrevIndex(i, n), n) == i
  {
  }

  /** The card reached after `k` presses of "next" from card `i`. */
  function Advance(i: int, k: nat, n: int): (r: int)
    requires 0 <= i < n
    ensures 0 <= r < n
  {
    if k == 0 then i else NextIndex(Advance(i, k - 1, n), n)
  }

  /** Up to a full round, `k` presses of "next" move `k` cards on, wrapping once past the last card. */
  lemma {:induction false} AdvanceWraps(i: int, k: nat, n: int)
    requires 0 <= i < n && k <= n
    ensures Advance(i, k, n) == (if i + k < n then i + k else i + k - n)
  {
    if k > 0 {
      AdvanceWraps(i, k - 1, n);
    }
  }

  /** How many presses of "next" lead from card `i` to card `j`. */
  function Steps(i: int, j: int, n: int): (k: nat)
    requires 0 <= i < n && 0 <= j < n
    ensures k < n
  {
    if j >= i then j - i else j + n - i
  }

  /**
   * Starting from any card, every card of the deck is reached within `n` presses of "next",
   * the `n`-th press comes back to the start, and from the first card the deck shows in order.
   */
  lemma NextVisitsEveryCard(i: int, n: int)
    requires 0 <= i < n
    ensures Advance(i, n, n) == i
    ensures forall j :: 0 <= j < n ==> Advance(i, Steps(i, j, n), n) == j
    ensures forall k :: 0 <= k < n ==> Advance(0, k, n) == k
  {
    AdvanceWraps(i, n, n);
    forall j | 0 <= j < n ensures Advance(i, Steps(i, j, n), n) == j {
      AdvanceWraps(i, Steps(i, j, n), n);
    }
    forall k | 0 <= k < n ensures Advance(0, k, n) == k {
      AdvanceWraps(0, k, n);
    }
  }

  /** The Flashcards component's state hooks. */
  class Flashcards {
    var currentIndex: int
    var isFlipped: bool
    var shuffledVerbs: seq<Verb>

    /** The index stays on a card of the deck once the deck is there. */
    predicate Valid()
      reads this
    {
      0 <= currentIndex && (shuffledVerbs != [] ==> currentIndex < |shuffledVerbs|)
    }

    /** Mounting, including the effect that shuffles the catalogue: first card, front side up. */
    constructor (catalog: seq<Verb>)
      ensures Valid() && currentIndex == 0 && !isFlipped
      ensures multiset(shuffledVerbs) == multiset(catalog)
    {
      currentIndex := 0;
      isFlipped := false;
      var shuffled: seq<Verb> :| multiset(shuffled) == multiset(catalog);
      shuffledVerbs := shuffled;
    }

    /** The card on show; while the deck is empty the component only shows "Loading...". */
    function CurrentVerb(): (v: Verb)
      requires Valid() && shuffledVerbs != []
      reads this
      ensures v in shuffledVerbs
    {
      shuffledVerbs[currentIndex]
    }

    /** The counter `{currentIndex + 1} / {length}`: always a position between 1 and the deck size. */
    function Position(): (p: int)
      requires Valid() && shuffledVerbs != []
      reads this
      ensures 1 <= p <= |shuffledVerbs|
    {
      currentIndex + 1
    }

    /** `handleNext`: the card turns front side up and the next card comes. */
    method HandleNext()
      requires Valid() && shuffledVerbs != []
      modifies this
      ensures Valid() && !isFlipped && shuffledVerbs == old(shuffledVerbs)
      ensures currentIndex == NextIndex(old(currentIndex), |shuffledVerbs|)
    {
      isFlipped := false;
      currentIndex := (currentIndex + 1) % |shuffledVerbs|;
    }

    /** `handlePrev`: the card turns front side up and the previous card comes. */
    method HandlePrev()
      requires Valid() && shuffledVerbs != []
      modifies this
      ensures Valid() && !isFlipped && shuffledVerbs == old(shuffledVerbs)
      ensures currentIndex == PrevIndex(old(currentIndex), |shuffledVerbs|)
    {
      isFlipped := false;
      currentIndex := (currentIndex - 1 + |shuffledVerbs|) % |shuffledVerbs|;
    }

    /** A tap on the card turns it over. */
    method Flip()
      requires Valid()
      modifies this
      ensures Valid() && isFlipped == !old(isFlipped)
      ensures currentIndex == old(currentIndex) && shuffledVerbs == old(shuffledVerbs)
    {
      isFlipped := !isFlipped;
    }
  }
}
