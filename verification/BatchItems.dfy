/** Why one item of a batch is refused, said of what is found in its payload, its grants and its columns. */
module BatchItems {
  import opened Text
  import opened CanonicalJson
  import opened JsonProblem
  import opened JsonPaths
  import opened Batch

  /** Some grant satisfies `bad`. */
  predicate InGrants(e: Event, bad: Str -> bool) { e.grants.Some? && exists g | g in e.grants.value :: bad(g) }

  lemma GrantsVerdictIs(grants: seq<Str>)
    ensures Verdict(GrantsJson(grants)) ==
            if exists g | g in grants :: HasZero(g) then Some(NulCharacter)
            else if exists g | g in grants :: HasLoneSurrogate(g) then Some(LoneSurrogate)
            else None
  {
    GrantsVerdict(grants);
    forall g: Str ensures (ContainsNul(g) <==> HasZero(g)) && (ContainsLone(g) <==> HasLoneSurrogate(g)) {
      LoneIs(g);
    }
    hide ContainsNul, ContainsLone, HasZero, HasLoneSurrogate, Deep, Has;
  }

  /**
   * The first problem of an item, with the field it is reported for: a payload
   * nested too deep, a text column its value would not fit, U+0000 in a grant,
   * a lone surrogate in one, then the same two in the payload.
   */
  lemma FirstProblemIs(e: Event)
    ensures FirstProblem(e) ==
            if TooDeepAt(e.payload) then Some(ItemProblem("payload", Unstorable(TooDeep)))
            else if e.column.Some? then Some(ItemProblem(e.column.value, ColumnLimit))
            else if InGrants(e, HasZero) then Some(ItemProblem("grants", Unstorable(NulCharacter)))
            else if InGrants(e, HasLoneSurrogate) then Some(ItemProblem("grants", Unstorable(LoneSurrogate)))
            else if FoundAt(e.payload, HasZero) then Some(ItemProblem("payload", Unstorable(NulCharacter)))
            else if FoundAt(e.payload, HasLoneSurrogate) then Some(ItemProblem("payload", Unstorable(LoneSurrogate)))
            else None
  {
    VerdictIs(e.payload);
    if e.grants.Some? {
      GrantsVerdictIs(e.grants.value);
    }
    hide Verdict, TooDeepAt, FoundAt, HasZero, HasLoneSurrogate, GrantsJson;
  }
}
