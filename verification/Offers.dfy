/** How a request ranks the offers of providers. */
module Offers {
  import opened Text
  import opened Sorting
  import opened Capsules

  /** An offer that states nothing is available; one that states null is not. */
  predicate Unavailable(o: Offer) {
    o.available in {StatedNull, Stated(false)}
  }

  /** A price of zero counts as missing. */
  function Price(o: Offer): real {
    if o.pricePerHr.Some? && o.pricePerHr.value != 0.0 then o.pricePerHr.value
    else if o.pricePerHourUsd.Some? && o.pricePerHourUsd.value != 0.0 then o.pricePerHourUsd.value
    else 1000000.0
  }

  predicate Preferred(a: Offer, b: Offer) {
    if Unavailable(a) != Unavailable(b) then Unavailable(b)
    else if Price(a) != Price(b) then Price(a) < Price(b)
    else LexLeq(a.provider, b.provider)
  }

  lemma PreferredIsTotalPreorder()
    ensures TotalPreorder(Preferred)
  {
    forall a, b
      ensures Preferred(a, b) || Preferred(b, a)
    {
      LexTotal(a.provider, b.provider);
    }
    forall a, b, c | Preferred(a, b) && Preferred(b, c)
      ensures Preferred(a, c)
    {
      if Unavailable(a) == Unavailable(b) == Unavailable(c) && Price(a) == Price(b) == Price(c) {
        LexTransitive(a.provider, b.provider, c.provider);
      }
    }
  }

  /**
   * Every available offer is listed before every unavailable one, cheaper ones first among each, equal prices by
   * provider, and what is still tied in the order it was sent.
   */
  lemma OffersRanked(offers: seq<Offer>)
    ensures var ranked := StableSort(offers, Preferred);
            && multiset(ranked) == multiset(offers)
            && (forall i, j :: 0 <= i < j < |ranked| ==>
                  && (Unavailable(ranked[i]) ==> Unavailable(ranked[j]))
                  && (Unavailable(ranked[i]) == Unavailable(ranked[j]) ==>
                        && Price(ranked[i]) <= Price(ranked[j])
                        && (Price(ranked[i]) == Price(ranked[j]) ==> LexLeq(ranked[i].provider, ranked[j].provider))))
            && (forall o :: Ties(ranked, o, Preferred) == Ties(offers, o, Preferred))
  {
    PreferredIsTotalPreorder();
    StableSortSorts(offers, Preferred);
    var ranked := StableSort(offers, Preferred);
    forall i, j | 0 <= i < j < |ranked|
      ensures Preferred(ranked[i], ranked[j])
    {
    }
    forall o
      ensures Ties(ranked, o, Preferred) == Ties(offers, o, Preferred)
    {
      StableSortIsStable(offers, o, Preferred);
    }
  }

  predicate States(o: Offer, price: real) {
    o.pricePerHr == Some(price) || o.pricePerHourUsd == Some(price)
  }

  ghost predicate Priced(o: Offer) {
    exists price :: States(o, price) && price != 0.0
  }

  /** An offer ranks at a price it states exactly when either of its fields is not zero. */
  lemma StatedPriceCounts(o: Offer)
    ensures States(o, Price(o)) <==> Priced(o)
    ensures !Priced(o) ==> Price(o) == 1000000.0
  {
    if o.pricePerHr.Some? && o.pricePerHr.value != 0.0 {
      assert States(o, o.pricePerHr.value);
    } else if o.pricePerHourUsd.Some? && o.pricePerHourUsd.value != 0.0 {
      assert States(o, o.pricePerHourUsd.value);
    }
  }

  /**
   * A free offer, in whichever field it says so, ranks behind another one exactly when that costs less than a million
   * an hour, or just a million under an earlier provider name.
   */
  lemma FreeOfferRanksLate(free: Offer, paid: Offer)
    requires !Priced(free) && Unavailable(free) == Unavailable(paid)
    ensures !Preferred(free, paid) <==>
            Price(paid) < 1000000.0 || (Price(paid) == 1000000.0 && !LexLeq(free.provider, paid.provider))
    ensures StableSort([free, paid], Preferred) == if Preferred(free, paid) then [free, paid] else [paid, free]
  {
    StatedPriceCounts(free);
    assert [free, paid][1..] == [paid];
    assert [paid][1..] == [];
    assert StableSort([paid], Preferred) == [paid];
    assert Insert(free, [], Preferred) == [free];
  }

  /** An offer is unavailable exactly when it says false or null. */
  lemma UnavailableExactly(o: Offer)
    ensures Unavailable(o) <==> o.available == Stated(false) || o.available == StatedNull
  {
  }

  /** The price per hour comes first, the one in dollars second; zeros are passed over. */
  lemma PriceExact(o: Offer)
    ensures var first, second := o.pricePerHr, o.pricePerHourUsd;
            && (first.Some? && first.value != 0.0 ==> Price(o) == first.value)
            && ((first.None? || first.value == 0.0) && second.Some? && second.value != 0.0 ==> Price(o) == second.value)
  {
  }
}
