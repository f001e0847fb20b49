/** Allocation counters. Those of batches, variations and reviews exceed every live number of their kind, so a
    new identifier is fresh; that of attempts does unless a drill is added with attempts of its own. */
module Counters {
  import opened Positions
  import opened Text
  import opened Events

  const VARIATION_PREFIX := "variation-"
  const ID_LIMIT: nat := 0xffff_ffff_ffff_ffff

  function VariationId(n: nat): string {
    VARIATION_PREFIX + NatText(n)
  }

  /** The value of the digits a text starts with. */
  function LeadingNumber(text: string): Option<nat> {
    var digits := LeadingDigits(text);
    if digits == "" then None else Some(NatValue(digits))
  }

  function LeadingDigits(text: string): (digits: string)
    ensures forall c :: c in digits ==> IsDigit(c)
  {
    if text != "" && IsDigit(text[0]) then [text[0]] + LeadingDigits(text[1..]) else ""
  }

  /** The counter after a variation is seen: one past its number, if it has one in range. */
  function NextVariation(next: nat, id: string): (r: nat)
    ensures r >= next
  {
    if VARIATION_PREFIX <= id && LeadingNumber(id[|VARIATION_PREFIX|..]).Some? then
      var n := LeadingNumber(id[|VARIATION_PREFIX|..]).value;
      if n < ID_LIMIT && n + 1 > next then n + 1 else next
    else next
  }

  ghost predicate VariationsBelow(variations: map<string, Variation>, next: nat) {
    forall n: nat :: n < ID_LIMIT && VariationId(n) in variations ==> n < next
  }

  ghost predicate BatchesBelow(batches: map<string, Batch>, next: nat) {
    forall id :: id in batches ==> batches[id].sequence < next
  }

  ghost predicate ReviewsBelow(reviews: seq<ReviewAttempt>, next: nat) {
    forall r :: r in reviews ==> r.id < next
  }

  ghost predicate AttemptsBelow(attempts: seq<Attempt>, next: nat) {
    forall a :: a in attempts ==> a.id < next
  }

  ghost predicate DrillsBelow(drills: map<string, Drill>, next: nat) {
    forall id :: id in drills ==> AttemptsBelow(drills[id].attempts, next)
  }

  ghost predicate AttemptUnused(drills: map<string, Drill>, n: nat) {
    forall id, a :: id in drills && a in drills[id].attempts ==> a.id != n
  }

  /** A stored drill keeps the attempt counter ahead exactly when its own attempts are below it. */
  lemma DrillBelow(drills: map<string, Drill>, next: nat, id: string, drill: Drill)
    requires DrillsBelow(drills, next)
    ensures DrillsBelow(drills[id := drill], next) <==> AttemptsBelow(drill.attempts, next)
  {
    assert drills[id := drill][id] == drill;
  }

  lemma SameAttemptsBelow(drills: map<string, Drill>, next: nat, id: string, drill: Drill)
    requires id in drills && drill.attempts == drills[id].attempts
    ensures DrillsBelow(drills, next) ==> DrillsBelow(drills[id := drill], next)
  {
  }

  lemma AttemptBelow(drills: map<string, Drill>, next: nat, later: nat, id: string, attempt: Attempt)
    requires id in drills && next <= later && attempt.id < later
    ensures
      var drill := drills[id].(attempts := drills[id].attempts + [attempt]);
      DrillsBelow(drills, next) ==> DrillsBelow(drills[id := drill], later)
  {
  }

  lemma LaterBelow(drills: map<string, Drill>, next: nat, later: nat)
    requires next <= later
    ensures DrillsBelow(drills, next) ==> DrillsBelow(drills, later)
  {
  }

  lemma NextUnused(drills: map<string, Drill>, next: nat)
    ensures DrillsBelow(drills, next) ==> AttemptUnused(drills, next)
  {
  }

  /** No drill of the log was created with attempts. */
  ghost predicate BornWithout(log: seq<Entry>) {
    forall e :: e in log && e.content.DrillCreated? ==> e.content.drill.attempts == []
  }

  lemma {:induction false} LeadingDigitsAll(text: string)
    requires forall c :: c in text ==> IsDigit(c)
    ensures LeadingDigits(text) == text
  {
    if text != "" {
      assert text[0] in text;
      LeadingDigitsAll(text[1..]);
    }
  }

  lemma NextVariationExceeds(next: nat, n: nat)
    requires n < ID_LIMIT
    ensures n < NextVariation(next, VariationId(n))
  {
    hide NatValue, NatText;
    var id := VariationId(n);
    assert id[|VARIATION_PREFIX|..] == NatText(n);
    LeadingDigitsAll(NatText(n));
    NatRoundTrip(n);
  }

  /** A saved variation keeps the counter ahead. */
  lemma SavedBelow(variations: map<string, Variation>, next: nat, v: Variation)
    requires VariationsBelow(variations, next)
    ensures VariationsBelow(variations[v.id := v], NextVariation(next, v.id))
  {
    hide NextVariation, VariationId;
    forall n: nat | n < ID_LIMIT && VariationId(n) in variations[v.id := v]
      ensures n < NextVariation(next, v.id)
    {
      if VariationId(n) == v.id {
        NextVariationExceeds(next, n);
      }
    }
  }

  /** The next identifier is fresh. */
  lemma NextIsFresh(variations: map<string, Variation>, next: nat)
    requires VariationsBelow(variations, next) && next < ID_LIMIT
    ensures VariationId(next) !in variations
  {
  }

  lemma VariationIdInjective(m: nat, n: nat)
    requires VariationId(m) == VariationId(n)
    ensures m == n
  {
    hide NatText, NatValue;
    assert VariationId(m)[|VARIATION_PREFIX|..] == NatText(m);
    assert VariationId(n)[|VARIATION_PREFIX|..] == NatText(n);
    NatRoundTrip(m);
    NatRoundTrip(n);
  }

  lemma AllocatedBelow(variations: map<string, Variation>, next: nat, v: Variation)
    requires VariationsBelow(variations, next) && v.id == VariationId(next)
    ensures VariationsBelow(variations[v.id := v], next + 1)
  {
    hide VariationId;
    forall n: nat | n < ID_LIMIT && VariationId(n) in variations[v.id := v]
      ensures n < next + 1
    {
      if VariationId(n) == v.id {
        VariationIdInjective(n, next);
      }
    }
  }
}
