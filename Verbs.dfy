/** The verb catalogue's record types (types.ts) and the catalogue queries the games share. */
module Verbs {
  import opened Text

  datatype VerbCategory = N_ENDING | ABB | AAA | IAU | ABA | MODAL

  /** The string value of each enum member. */
  function Label(c: VerbCategory): string {
    match c
    case N_ENDING => "Participle ends in -n"
    case ABB => "A-B-B (Past & Participle same)"
    case AAA => "A-A-A (All forms same)"
    case IAU => "i - a - u Pattern"
    case ABA => "A-B-A (Base & Participle same)"
    case MODAL => "Modal Verbs"
  }

  /** Only the MODAL category's label mentions "Modal" (the test Time Attack uses). */
  lemma LabelMentionsModalOnlyForModal(c: VerbCategory)
    ensures Contains(Label(c), "Modal") <==> c == MODAL
  {
    match c
    case MODAL => ContainsAt("Modal Verbs", "Modal", 0);
    case N_ENDING => LacksModal("Participle ends in -n");
    case ABB => LacksModal("A-B-B (Past & Participle same)");
    case AAA => LacksModal("A-A-A (All forms same)");
    case IAU => LacksModal("i - a - u Pattern");
    case ABA => LacksModal("A-B-A (Base & Participle same)");
  }

  /** A text without a capital M cannot contain "Modal". */
  lemma LacksModal(s: string)
    requires 'M' !in s
    ensures !Contains(s, "Modal")
  {
    if Contains(s, "Modal") {
      ContainsHead(s, "Modal");
    }
  }

  /** A catalogue record; `past` and `participle` may list alternates ("woke / waked"). */
  datatype Verb = Verb(base: string, past: string, participle: string, category: VerbCategory)

  /** Which principal part a question asks for. */
  datatype Form = Past | Participle

  /** The canonical answer: `targetForm === 'Past' ? verb.past : verb.participle`. */
  function Answer(v: Verb, f: Form): string {
    if f == Past then v.past else v.participle
  }

  /** The form that was not asked for. */
  function OtherAnswer(v: Verb, f: Form): string {
    if f == Past then v.participle else v.past
  }

  /** Catalogue records have three non-empty forms. */
  predicate WellFormed(v: Verb) {
    v.base != "" && v.past != "" && v.participle != ""
  }

  predicate AllWellFormed(catalog: seq<Verb>) {
    forall i :: 0 <= i < |catalog| ==> WellFormed(catalog[i])
  }

  /** `VERB_DATA.filter(v => v.category !== VerbCategory.MODAL)`. */
  function NonModal(catalog: seq<Verb>): (r: seq<Verb>)
    ensures forall v :: v in r <==> v in catalog && v.category != MODAL
    ensures multiset(r) <= multiset(catalog)
  {
    if catalog == [] then []
    else
      var rest := NonModal(catalog[1..]);
      assert catalog == [catalog[0]] + catalog[1..];
      if catalog[0].category != MODAL then [catalog[0]] + rest else rest
  }

  /** Every past and participle text of the catalogue (the pool random distractors come from). */
  function Forms(catalog: seq<Verb>): set<string> {
    (set v | v in catalog :: v.past) + (set v | v in catalog :: v.participle)
  }
}
