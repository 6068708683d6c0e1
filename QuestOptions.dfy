/**
 * The Choice stage's three buttons (components/QuestGame.tsx, `generateOptions`): the
 * correct answer and two distractors, preferably "smart" ones built from the common
 * mistakes a learner makes with the base form, otherwise random forms of the catalogue.
 */
module QuestOptions {
  import opened Text
  import opened Verbs
  import opened Collections
  import opened QuestRules

  /** The characters of the `/[bcdfghjklmnpqrstvwxyz]/` test (lower case only). */
  predicate IsConsonant(c: char) {
    c in "bcdfghjklmnpqrstvwxyz"
  }

  /** `Set.add`: a value already present keeps its place, a new one goes last. */
  function AddUnique(s: seq<string>, x: string): (r: seq<string>)
    ensures forall w :: w in r <==> w in s || w == x
    ensures Distinct(s) ==> Distinct(r)
    ensures |s| <= |r| && r[..|s|] == s
  {
    if x in s then s else s + [x]
  }

  /**
   * The values `generateOptions` adds to its `Set`, in order: the regularised "-ed" form,
   * "-d" after a final "e" (otherwise "-ed" again), the other principal part (when it
   * differs from the answer and lists no alternates), the base form (when it differs from
   * the answer), "-en", and the doubled final consonant with "-ed".
   */
  function Proposals(v: Verb, f: Form): seq<string> {
    var base := v.base;
    var correct := Answer(v, f);
    var other := OtherAnswer(v, f);
    [base + "ed", if EndsWith(base, "e") then base + "d" else base + "ed"]
    + (if other != correct && !Contains(other, "/") then [other] else [])
    + (if base != correct then [base] else [])
    + [base + "en"]
    + (if |base| > 0 && IsConsonant(base[|base| - 1]) then [base + [base[|base| - 1]] + "ed"] else [])
  }

  /** Adding values one by one to a `Set`, which keeps the first occurrence of each. */
  function InsertAll(acc: seq<string>, s: seq<string>): (r: seq<string>)
    ensures forall w :: w in r <==> w in acc || w in s
    ensures Distinct(acc) ==> Distinct(r)
    decreases |s|
  {
    if s == [] then acc else InsertAll(AddUnique(acc, s[0]), s[1..])
  }

  /** The candidate distractors: the proposals without duplicates. */
  function Candidates(v: Verb, f: Form): (r: seq<string>)
    ensures Distinct(r)
    ensures forall w :: w in r <==> w in Proposals(v, f)
  {
    InsertAll([], Proposals(v, f))
  }

  /** Every heuristic whose condition holds is among the candidates. */
  lemma CandidatesComplete(v: Verb, f: Form)
    ensures v.base + "ed" in Candidates(v, f) && v.base + "en" in Candidates(v, f)
    ensures EndsWith(v.base, "e") ==> v.base + "d" in Candidates(v, f)
    ensures v.base != Answer(v, f) ==> v.base in Candidates(v, f)
    ensures OtherAnswer(v, f) != Answer(v, f) && !Contains(OtherAnswer(v, f), "/") ==>
              OtherAnswer(v, f) in Candidates(v, f)
    ensures |v.base| > 0 && IsConsonant(v.base[|v.base| - 1]) ==>
              v.base + [v.base[|v.base| - 1]] + "ed" in Candidates(v, f)
  {
  }

  /** Every candidate is one of the heuristic mistakes. */
  lemma CandidatesAreHeuristic(v: Verb, f: Form)
    ensures forall w :: w in Candidates(v, f) ==> IsHeuristic(v, f, w)
  {
    forall w | w in Candidates(v, f) ensures IsHeuristic(v, f, w) {
      assert w in Proposals(v, f);
    }
  }

  /** The mistakes the heuristics may propose for a question, stated one by one. */
  predicate IsHeuristic(v: Verb, f: Form, w: string) {
    w == v.base + "ed" || w == v.base + "d" || w == v.base || w == v.base + "en"
    || w == OtherAnswer(v, f)
    || (|v.base| > 0 && w == v.base + [v.base[|v.base| - 1]] + "ed")
  }

  /** The filter on the candidates: not the answer, not a piece of it, not empty. */
  predicate Plausible(w: string, correct: string) {
    w != correct && !Contains(correct, w) && w != ""
  }

  /** `Array.from(wrongCandidates).filter(...)`, in insertion order. */
  function FilterPlausible(s: seq<string>, correct: string): (r: seq<string>)
    ensures forall w :: w in r <==> w in s && Plausible(w, correct)
    ensures Distinct(s) ==> Distinct(r)
  {
    if s == [] then []
    else
      var rest := FilterPlausible(s[1..], correct);
      assert s == [s[0]] + s[1..];
      if Plausible(s[0], correct) then [s[0]] + rest else rest
  }

  /** The smart distractors of a question. */
  function SmartWrongs(v: Verb, f: Form): seq<string> {
    FilterPlausible(Candidates(v, f), Answer(v, f))
  }

  /** Three distinct buttons, one of them the answer. */
  predicate OptionsFor(opts: seq<string>, correct: string) {
    |opts| == 3 && Distinct(opts) && correct in opts
  }

  /** A smart distractor is never accepted by the Choice check. */
  lemma SmartWrongRejected(v: Verb, f: Form, w: string)
    requires w in SmartWrongs(v, f)
    ensures !ChoiceMatches(w, Answer(v, f)) && w != Answer(v, f) && IsHeuristic(v, f, w)
  {
  }

  /**
   * The fallback loop of `generateOptions` can finish: two smart distractors exist, or
   * `pool` holds enough forms that are neither the answer nor a smart distractor to top
   * them up to two.
   */
  predicate CanFill(smart: seq<string>, correct: string, pool: set<string>) {
    |smart| >= 2 || |pool - {correct} - Elements(smart)| >= 2 - |smart|
  }

  /**
   * A catalogue with at least three distinct forms lets the fallback loop finish for any
   * of its questions.
   */
  lemma OptionsAvailable(catalog: seq<Verb>, v: Verb, f: Form)
    requires v in catalog && |Forms(catalog)| >= 3
    ensures CanFill(SmartWrongs(v, f), Answer(v, f), Forms(catalog))
  {
    var smart := SmartWrongs(v, f);
    RemoveOneCard(Forms(catalog), Answer(v, f));
    RemoveSetCard(Forms(catalog) - {Answer(v, f)}, Elements(smart));
    DistinctCard(smart);
  }

  /**
   * `generateOptions`: the answer plus two distinct distractors, shuffled. The smart
   * distractors are shuffled and, while fewer than two are available, random catalogue
   * forms that are neither the answer nor already chosen are added. The draws the source
   * rejects change nothing, so only accepted draws are modelled; the loop ends exactly
   * when it can finish on the catalogue's forms.
   */
  method GenerateOptions(v: Verb, f: Form, catalog: seq<Verb>) returns (opts: seq<string>)
    requires CanFill(SmartWrongs(v, f), Answer(v, f), Forms(catalog))
    ensures OptionsFor(opts, Answer(v, f))
    ensures forall w :: w in opts && w != Answer(v, f) ==> w in SmartWrongs(v, f) || w in Forms(catalog)
    ensures |SmartWrongs(v, f)| >= 2 ==>
              forall w :: w in opts && w != Answer(v, f) ==> w in SmartWrongs(v, f)
    ensures |SmartWrongs(v, f)| >= 2 ==>
              forall w :: w in opts ==> (ChoiceMatches(w, Answer(v, f)) <==> w == Answer(v, f))
    ensures |SmartWrongs(v, f)| <= 2 ==> forall w :: w in SmartWrongs(v, f) ==> w in opts
  {
    var correct := Answer(v, f);
    var smart := SmartWrongs(v, f);
    assert forall w :: w in smart ==> w != correct;
    opts := PickOptions(correct, smart, Forms(catalog));
    if |smart| >= 2 {
      OnlyAnswerMatches(v, f, opts);
    }
  }

  /**
   * The second half of `generateOptions`: shuffle the smart distractors, top them up with
   * random forms from `pool` (the catalogue's forms), and shuffle the answer with the first two.
   */
  method PickOptions(correct: string, smart: seq<string>, pool: set<string>) returns (opts: seq<string>)
    requires Distinct(smart) && correct !in smart
    requires CanFill(smart, correct, pool)
    ensures OptionsFor(opts, correct)
    ensures forall w :: w in opts && w != correct ==> w in smart || w in pool
    ensures |smart| >= 2 ==> forall w :: w in opts && w != correct ==> w in smart
    ensures |smart| <= 2 ==> forall w :: w in smart ==> w in opts
  {
    var shuffled: seq<string> :| multiset(shuffled) == multiset(smart);
    PermutationKeepsDistinct(smart, shuffled);
    PermutationSameValues(smart, shuffled);
    assert Elements(shuffled) == Elements(smart);
    assert |shuffled| == |multiset(shuffled)| == |smart|;
    var validWrongs := FillWithRandomForms(shuffled, correct, pool);
    assert validWrongs[0] in validWrongs && validWrongs[1] in validWrongs;
    opts := ShuffleWithAnswer(correct, validWrongs[0], validWrongs[1]);
  }

  /** `[correct, w0, w1].sort(() => Math.random() - 0.5)`: the three buttons in random order. */
  method ShuffleWithAnswer(correct: string, w0: string, w1: string) returns (opts: seq<string>)
    requires correct != w0 && correct != w1 && w0 != w1
    ensures OptionsFor(opts, correct)
    ensures forall w :: w in opts <==> w == correct || w == w0 || w == w1
  {
    var picked := [correct, w0, w1];
    opts :| multiset(opts) == multiset(picked);
    ShuffledOptions(picked, opts, correct);
  }

  /** Buttons made of the answer and smart distractors: only the answer passes the Choice check. */
  lemma OnlyAnswerMatches(v: Verb, f: Form, opts: seq<string>)
    requires forall w :: w in opts && w != Answer(v, f) ==> w in SmartWrongs(v, f)
    ensures forall w :: w in opts ==> (ChoiceMatches(w, Answer(v, f)) <==> w == Answer(v, f))
  {
    forall w | w in opts ensures ChoiceMatches(w, Answer(v, f)) <==> w == Answer(v, f) {
      if w != Answer(v, f) {
        SmartWrongRejected(v, f, w);
      } else {
        ContainsSelf(w);
      }
    }
  }

  /**
   * The fallback loop of `generateOptions`: while fewer than two distractors exist, add a
   * form from `pool` that is neither the answer nor already present.
   */
  method FillWithRandomForms(wrongs: seq<string>, correct: string, pool: set<string>)
    returns (filled: seq<string>)
    requires Distinct(wrongs) && correct !in wrongs
    requires CanFill(wrongs, correct, pool)
    ensures Distinct(filled) && correct !in filled && |filled| >= 2
    ensures |wrongs| <= |filled| && filled[..|wrongs|] == wrongs
    ensures forall w :: w in filled ==> w in wrongs || w in pool
    ensures |wrongs| >= 2 ==> filled == wrongs
  {
    var unused := pool - {correct} - Elements(wrongs);
    filled := wrongs;
    while |filled| < 2
      invariant Distinct(filled) && |wrongs| <= |filled|
      invariant filled == wrongs + filled[|wrongs|..]
      invariant forall w :: w in filled[|wrongs|..] ==> w in unused
      invariant |wrongs| >= 2 ==> filled == wrongs
      invariant correct !in filled
      decreases 2 - |filled|
    {
      var added := filled[|wrongs|..];
      FreshElement(unused, added);
      var form :| form in unused && form !in added;
      filled := filled + [form];
      assert filled[|wrongs|..] == added + [form];
    }
  }

  /** A shuffle of the answer and two distinct distractors is a valid set of buttons. */
  lemma ShuffledOptions(picked: seq<string>, opts: seq<string>, correct: string)
    requires |picked| == 3 && picked[0] == correct && Distinct(picked)
    requires multiset(opts) == multiset(picked)
    ensures OptionsFor(opts, correct)
    ensures forall w :: w in opts <==> w in picked
  {
    PermutationKeepsDistinct(picked, opts);
    PermutationSameValues(picked, opts);
    assert picked[0] in picked;
    assert |opts| == |multiset(opts)| == |multiset(picked)| == |picked|;
  }
}
