/** The search predicates of PropertySpecification.java, read as predicates
    over one property row. A specification that returns `null` imposes no
    constraint; a comparison with a NULL column never holds. */
module PropertySpecification {
  import opened Wrappers
  import opened Text

  /** The columns the filters and the moderation flow read. The rest of the
      entity (Property.java is not part of this model) is carried opaquely.
      NULL columns are `None`; the price column is a finite double. */
  datatype Property = Property(
    id: int,
    city: Option<string>,
    propertyType: Option<string>,
    price: Option<real>,
    status: Option<string>,
    details: map<string, string>)

  const Pending: string := "PENDING"
  const Approved: string := "APPROVED"
  const Rejected: string := "REJECTED"

  /** `hasCity`: null or blank imposes nothing; otherwise exact equality. */
  predicate HasCity(city: Option<string>, p: Property) {
    city.None? || IsJavaBlank(city.value) || p.city == Some(city.value)
  }

  /** `hasPropertyType`: null or blank imposes nothing; otherwise exact equality. */
  predicate HasPropertyType(propertyType: Option<string>, p: Property) {
    propertyType.None? || IsJavaBlank(propertyType.value) || p.propertyType == Some(propertyType.value)
  }

  /** `hasStatus`: only null imposes nothing; a blank status is compared too. */
  predicate HasStatus(status: Option<string>, p: Property) {
    status.None? || p.status == Some(status.value)
  }

  /** `priceBetween`: both bounds give SQL BETWEEN (inclusive), one bound a
      one-sided inclusive comparison, none no constraint. */
  predicate PriceBetween(minPrice: Option<real>, maxPrice: Option<real>, p: Property) {
    if minPrice.None? && maxPrice.None? then true
    else if minPrice.Some? && maxPrice.Some? then p.price.Some? && minPrice.value <= p.price.value <= maxPrice.value
    else if minPrice.Some? then p.price.Some? && p.price.value >= minPrice.value
    else p.price.Some? && p.price.value <= maxPrice.value
  }

  predicate IsApproved(p: Property) { HasStatus(Some(Approved), p) }
  predicate IsPending(p: Property) { HasStatus(Some(Pending), p) }
  predicate IsRejected(p: Property) { HasStatus(Some(Rejected), p) }

  /** The price filter in closed form: each present bound is an inclusive
      limit on a non-NULL price. */
  lemma PriceBetweenExactly(minPrice: Option<real>, maxPrice: Option<real>, p: Property)
    ensures PriceBetween(minPrice, maxPrice, p) <==>
              (minPrice.None? && maxPrice.None?)
              || (&& p.price.Some?
                  && (minPrice.Some? ==> minPrice.value <= p.price.value)
                  && (maxPrice.Some? ==> p.price.value <= maxPrice.value))
  {
  }

  /** A blank city is no constraint, but a blank status is an equality test
      that only a row with that blank status passes. */
  lemma BlankCityVersusBlankStatus(p: Property, blank: string)
    requires IsJavaBlank(blank)
    ensures HasCity(Some(blank), p)
    ensures HasPropertyType(Some(blank), p)
    ensures HasStatus(Some(blank), p) <==> p.status == Some(blank)
  {
  }

  /** A row with NULL price passes only the unbounded price filter. */
  lemma NullPriceOnlyUnbounded(minPrice: Option<real>, maxPrice: Option<real>, p: Property)
    requires p.price.None?
    ensures PriceBetween(minPrice, maxPrice, p) <==> minPrice.None? && maxPrice.None?
  {
  }

  /** The three status shortcuts are the equality tests on the three
      moderation states, and a row satisfies at most one of them. */
  lemma StatusShortcutsExclusive(p: Property)
    ensures IsApproved(p) <==> p.status == Some(Approved)
    ensures IsPending(p) <==> p.status == Some(Pending)
    ensures IsRejected(p) <==> p.status == Some(Rejected)
    ensures !(IsApproved(p) && IsPending(p)) && !(IsApproved(p) && IsRejected(p)) && !(IsPending(p) && IsRejected(p))
  {
  }
}
