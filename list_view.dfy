/**
 * The search and status tests and the badge classes that the three list pages
 * write out identically.
 */
module ListView {
  import opened Wrappers
  import opened Text

  /** `field?.toLowerCase().includes(term.toLowerCase()) || false`. */
  predicate SearchMatches(field: Option<string>, term: string) {
    field.Some? && Contains(Lower(field.value), Lower(term))
  }

  /** A record passes the search exactly when the lowered term occurs somewhere in its lowered field. */
  lemma SearchMatchesIffOccurs(field: Option<string>, term: string)
    ensures SearchMatches(field, term) <==>
      field.Some? && exists i :: OccursAt(Lower(field.value), Lower(term), i)
  {
    if field.Some? {
      ContainsIffOccurs(Lower(field.value), Lower(term));
    }
  }

  /** With an empty term exactly the records that have the field pass; a missing field never passes. */
  lemma SearchEmptyTerm(field: Option<string>)
    ensures SearchMatches(field, "") <==> field.Some?
  {
  }

  /** The search ignores the case of the term. */
  lemma SearchIgnoresTermCase(field: Option<string>, term: string)
    ensures SearchMatches(field, Lower(term)) == SearchMatches(field, term)
  {
    LowerIdempotent(term);
  }

  /** The status filter shared by the three pages. */
  predicate StatusMatches(filter: string, isActive: bool) {
    filter == "" || (filter == "active" && isActive) || (filter == "inactive" && !isActive)
  }

  /** '' passes everything, 'active' and 'inactive' select by flag, any other value passes nothing. */
  lemma StatusFilterCases(filter: string, isActive: bool)
    ensures filter == "" ==> StatusMatches(filter, isActive)
    ensures filter == "active" ==> (StatusMatches(filter, isActive) <==> isActive)
    ensures filter == "inactive" ==> (StatusMatches(filter, isActive) <==> !isActive)
    ensures filter != "" && filter != "active" && filter != "inactive" ==> !StatusMatches(filter, isActive)
  {
  }

  const GreenBadge: string := "bg-green-100 text-green-800"
  const YellowBadge: string := "bg-yellow-100 text-yellow-800"
  const RedBadge: string := "bg-red-100 text-red-800"
  const BlueBadge: string := "bg-blue-100 text-blue-800"
  const GrayBadge: string := "bg-gray-100 text-gray-800"
}
