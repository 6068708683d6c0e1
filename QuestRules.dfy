/**
 * The pure rules of the Quest battle (components/QuestGame.tsx): the rank ladder, the
 * per-enemy time budget and the two answer checks of the Choice and Spell stages.
 */
module QuestRules {
  import opened Text

  // ---------------------------------------------------------------------------
  // Rank
  // ---------------------------------------------------------------------------

  datatype Rank = Novice | Squire | Knight | Champion | Legend

  /** Position of a rank on the ladder. */
  function Level(r: Rank): nat {
    match r
    case Novice => 0
    case Squire => 1
    case Knight => 2
    case Champion => 3
    case Legend => 4
  }

  /** Number of defeated enemies a rank needs. */
  function Threshold(r: Rank): nat {
    match r
    case Novice => 0
    case Squire => 5
    case Knight => 15
    case Champion => 30
    case Legend => 50
  }

  /**
   * `getRank`: the rank for a count of defeated enemies. It is the highest rank whose
   * threshold the count has reached.
   */
  function GetRank(count: nat): (r: Rank)
    ensures Threshold(r) <= count
    ensures forall q: Rank :: Threshold(q) <= count ==> Level(q) <= Level(r)
  {
    if count < 5 then Novice
    else if count < 15 then Squire
    else if count < 30 then Knight
    else if count < 50 then Champion
    else Legend
  }

  /** Defeating more enemies never lowers the rank. */
  lemma RankMonotone(a: nat, b: nat)
    requires a <= b
    ensures Level(GetRank(a)) <= Level(GetRank(b))
  {
    assert Threshold(GetRank(a)) <= b;
  }

  // ---------------------------------------------------------------------------
  // Time budget
  // ---------------------------------------------------------------------------

  /** Seconds per enemy: `Math.max(5, 15 - Math.floor(totalDefeated / 5))`. */
  function TimeBudget(defeated: nat): (t: int)
    ensures 5 <= t <= 15
    ensures t == 15 <==> defeated < 5
    ensures t == 5 <==> defeated >= 50
  {
    var t := 15 - defeated / 5;
    if t < 5 then 5 else t
  }

  /** The budget never grows as the player progresses. */
  lemma {:induction false} TimeBudgetMonotone(a: nat, b: nat)
    requires a <= b
    ensures TimeBudget(b) <= TimeBudget(a)
    decreases b - a
  {
    if a < b {
      TimeBudgetMonotone(a, b - 1);
      assert (b - 1) / 5 <= b / 5;
    }
  }

  /** Five more defeats take one second off the budget, down to the floor of five. */
  lemma TimeBudgetStep(d: nat)
    ensures TimeBudget(d + 5) == if TimeBudget(d) == 5 then 5 else TimeBudget(d) - 1
  {
    assert (d + 5) / 5 == d / 5 + 1;
  }

  // ---------------------------------------------------------------------------
  // Answer checks
  // ---------------------------------------------------------------------------

  /** Choice stage: `correct.includes(selected)`, so any piece of the answer is accepted. */
  predicate ChoiceMatches(selected: string, correct: string) {
    Contains(correct, selected)
  }

  /** The alternates of a canonical answer, as the Spell stage splits it: on " / ". */
  function Alternates(correct: string): seq<string> {
    Split(correct, " / ")
  }

  /** `s.trim().toLowerCase()` */
  function TrimLower(s: string): string {
    Lower(Trim(s))
  }

  /**
   * Spell stage: the trimmed, lower-cased input equals one of the trimmed, lower-cased
   * " / "-separated alternates.
   */
  predicate SpellingMatches(input: string, correct: string) {
    var alts := Alternates(correct);
    TrimLower(input) in seq(|alts|, k requires 0 <= k < |alts| => TrimLower(alts[k]))
  }

  /** The Spell check, stated without the mapped list: some alternate normalises like the input. */
  lemma SpellingMatchesMeaning(input: string, correct: string)
    ensures SpellingMatches(input, correct) <==>
            exists k :: 0 <= k < |Alternates(correct)| && Normalize(Alternates(correct)[k]) == Normalize(input)
  {
    var alts := Alternates(correct);
    var cleaned := seq(|alts|, k requires 0 <= k < |alts| => TrimLower(alts[k]));
    LowerTrimCommute(input);
    forall k | 0 <= k < |alts| ensures cleaned[k] == Normalize(alts[k]) {
      LowerTrimCommute(alts[k]);
    }
    if SpellingMatches(input, correct) {
      var k :| 0 <= k < |cleaned| && cleaned[k] == TrimLower(input);
      assert Normalize(alts[k]) == Normalize(input);
    }
    if exists k :: 0 <= k < |alts| && Normalize(alts[k]) == Normalize(input) {
      var k :| 0 <= k < |alts| && Normalize(alts[k]) == Normalize(input);
      assert cleaned[k] == TrimLower(input);
    }
  }

  /**
   * Every alternate is accepted however it is capitalised or padded with whitespace.
   */
  lemma SpellingAcceptsEveryAlternate(correct: string, k: nat, w1: string, w2: string)
    requires k < |Alternates(correct)|
    requires AllWhitespace(w1) && AllWhitespace(w2)
    ensures SpellingMatches(w1 + Alternates(correct)[k] + w2, correct)
    ensures SpellingMatches(Lower(Alternates(correct)[k]), correct)
  {
    var a := Alternates(correct)[k];
    NormalizeIgnoresCaseAndPadding(w1, a, w2);
    SpellingMatchesMeaning(w1 + a + w2, correct);
    SpellingMatchesMeaning(Lower(a), correct);
  }

  /** Case and surrounding whitespace of the typed answer never change the verdict. */
  lemma SpellingIgnoresCaseAndPadding(input: string, correct: string, w1: string, w2: string)
    requires AllWhitespace(w1) && AllWhitespace(w2)
    ensures SpellingMatches(w1 + input + w2, correct) == SpellingMatches(input, correct)
    ensures SpellingMatches(Lower(input), correct) == SpellingMatches(input, correct)
  {
    NormalizeIgnoresCaseAndPadding(w1, input, w2);
    SpellingMatchesMeaning(w1 + input + w2, correct);
    SpellingMatchesMeaning(Lower(input), correct);
    SpellingMatchesMeaning(input, correct);
  }

  /** An answer without alternates is accepted when typed as it is written. */
  lemma SpellingAcceptsPlainAnswer(correct: string)
    requires !Contains(correct, " / ")
    ensures SpellingMatches(correct, correct)
  {
    SplitWithoutSeparator(correct, " / ");
    SpellingMatchesMeaning(correct, correct);
    assert Alternates(correct)[0] == correct;
  }

  /** Whatever the Spell stage accepts, the Choice stage would accept too when typed exactly. */
  lemma SpellingAlternateIsChoice(correct: string, k: nat)
    requires k < |Alternates(correct)|
    ensures ChoiceMatches(Alternates(correct)[k], correct)
  {
    var alts := Alternates(correct);
    JoinSplit(correct, " / ");
    JoinContainsPiece(alts, " / ", k);
  }

  /** Each piece of a joined list occurs in the joined string. */
  lemma {:induction false} JoinContainsPiece(parts: seq<string>, sep: string, k: nat)
    requires |parts| >= 1 && k < |parts|
    ensures Contains(Join(parts, sep), parts[k])
    decreases |parts|
  {
    var j := Join(parts, sep);
    if |parts| == 1 {
      ContainsSelf(parts[0]);
    } else if k == 0 {
      assert j == parts[0] + (sep + Join(parts[1..], sep));
      assert j[0..|parts[0]|] == parts[0];
      ContainsAt(j, parts[0], 0);
    } else {
      var tail := Join(parts[1..], sep);
      JoinContainsPiece(parts[1..], sep, k - 1);
      var i :| 0 <= i <= |tail| - |parts[k]| && OccursAt(tail, parts[k], i);
      var off := |parts[0]| + |sep|;
      assert j == (parts[0] + sep) + tail;
      assert j[off + i..off + i + |parts[k]|] == tail[i..i + |parts[k]|];
      ContainsAt(j, parts[k], off + i);
    }
  }
}
