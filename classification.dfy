/** How the presenter grades a submitted edit (`_handleSubmitForm`). */
module EditClassification {
  import opened TripTypes

  /** `offers.reduce((sum, offer) => sum + offer.price, 0)`: a left fold, so the
      last offer is added last. No offers total 0, and offers with no negative
      price never total a negative amount. */
  function OffersTotal(offers: seq<Offer>): (r: int)
    ensures |offers| == 0 ==> r == 0
    ensures (forall i :: 0 <= i < |offers| ==> offers[i].price >= 0) ==> r >= 0
  {
    if |offers| == 0 then 0
    else OffersTotal(offers[..|offers| - 1]) + offers[|offers| - 1].price
  }

  /** The length of an event; `calculateDuration` is not part of this model and
      is taken to be the difference of the two timestamps. */
  function Duration(e: Event): int
  {
    e.timeEnd - e.timeStart
  }

  /** The extra record sent with an update. */
  datatype SubmitMeta = SubmitMeta(isDateStartEqual: bool, isDurationEqual: bool, isPriceEqual: bool)

  /** The comparisons the source sends along with a submitted edit. */
  function Meta(original: Event, submitted: Event): SubmitMeta
  {
    SubmitMeta(
      original.timeStart == submitted.timeStart,
      Duration(original) == Duration(submitted),
      original.price == submitted.price)
  }

  /** MINOR when the edit may move the event in the sorted or filtered list
      (price, offers total, destination or end date changed), PATCH otherwise. */
  function Classify(original: Event, submitted: Event): (r: UpdateType)
    ensures r == Minor || r == Patch
    ensures original == submitted ==> r == Patch
  {
    var isPriceEqual := original.price == submitted.price;
    var isOffersPriceEqual := OffersTotal(original.offers) == OffersTotal(submitted.offers);
    var isDestinationEqual := original.destination == submitted.destination;
    var isDateEndEqual := original.timeEnd == submitted.timeEnd;
    if !isPriceEqual || !isOffersPriceEqual || !isDestinationEqual || !isDateEndEqual
    then Minor else Patch
  }

  /** The classification is MINOR exactly when one of the four compared fields
      differs, and PATCH exactly when none does; it is never MAJOR. */
  lemma ClassifyMinorIff(original: Event, submitted: Event)
    ensures Classify(original, submitted) == Minor <==>
      original.price != submitted.price
      || OffersTotal(original.offers) != OffersTotal(submitted.offers)
      || original.destination != submitted.destination
      || original.timeEnd != submitted.timeEnd
    ensures Classify(original, submitted) == Patch <==>
      original.price == submitted.price
      && OffersTotal(original.offers) == OffersTotal(submitted.offers)
      && original.destination == submitted.destination
      && original.timeEnd == submitted.timeEnd
    ensures Classify(original, submitted) != Major
  {
  }

  /** What the meta record tells the parent about the grade: an unchanged start
      and duration mean an unchanged end date, so with an unchanged price too
      the grade turns on the offers total and the destination alone; and an
      unchanged event reports every comparison equal. */
  lemma MetaAgreesWithClassify(original: Event, submitted: Event)
    ensures Meta(original, submitted).isDateStartEqual && Meta(original, submitted).isDurationEqual
            ==> original.timeEnd == submitted.timeEnd
    ensures Meta(original, submitted) == SubmitMeta(true, true, true)
            ==> (Classify(original, submitted) == Minor <==>
                   OffersTotal(original.offers) != OffersTotal(submitted.offers)
                   || original.destination != submitted.destination)
    ensures Meta(original, original) == SubmitMeta(true, true, true)
  {
  }

  /** The start date feeds only the meta record: moving the start of the
      submitted event (and with it its duration) never changes the grade. */
  lemma ClassifyIgnoresStart(original: Event, submitted: Event, start: int)
    ensures Classify(original, submitted.(timeStart := start)) == Classify(original, submitted)
  {
  }

  /** An edit that leaves the event as it was is a PATCH. */
  lemma ClassifyUnchangedIsPatch(e: Event)
    ensures Classify(e, e) == Patch
  {
  }

  /** The total of a concatenation is the sum of the two totals. */
  lemma {:induction false} OffersTotalAppend(xs: seq<Offer>, ys: seq<Offer>)
    ensures OffersTotal(xs + ys) == OffersTotal(xs) + OffersTotal(ys)
    decreases |ys|
  {
    if |ys| > 0 {
      var zs := xs + ys;
      assert zs[..|zs| - 1] == xs + ys[..|ys| - 1];
      OffersTotalAppend(xs, ys[..|ys| - 1]);
    } else {
      assert xs + ys == xs;
    }
  }

  /** Removing the offer at index `k` lowers the total by that offer's price. */
  lemma {:induction false} OffersTotalRemove(xs: seq<Offer>, k: nat)
    requires k < |xs|
    ensures OffersTotal(xs) == OffersTotal(xs[..k] + xs[k + 1..]) + xs[k].price
  {
    var before, one, after := xs[..k], [xs[k]], xs[k + 1..];
    assert xs == before + (one + after);
    OffersTotalAppend(before, one + after);
    OffersTotalAppend(one, after);
    OffersTotalSingle(xs[k]);
    OffersTotalAppend(before, after);
  }

  /** One offer totals its own price. */
  lemma OffersTotalSingle(o: Offer)
    ensures OffersTotal([o]) == o.price
  {
    assert [o][..0] == [];
  }

  /** The total does not depend on the order of the offers. */
  lemma {:induction false} OffersTotalPermutation(xs: seq<Offer>, ys: seq<Offer>)
    requires multiset(xs) == multiset(ys)
    ensures OffersTotal(xs) == OffersTotal(ys)
    decreases |xs|
  {
    if |xs| > 0 {
      var init, last := xs[..|xs| - 1], xs[|xs| - 1];
      assert xs == init + [last];
      assert last in multiset(ys);
      var k :| 0 <= k < |ys| && ys[k] == last;
      var rest := ys[..k] + ys[k + 1..];
      MultisetWithout(ys, k);
      CancelOne(multiset(init), multiset(rest), last);
      OffersTotalPermutation(init, rest);
      OffersTotalRemove(ys, k);
    } else {
      assert ys == [];
    }
  }

  /** The multiset of a sequence is that of the sequence without index `k`, plus `s[k]`. */
  lemma MultisetWithout(s: seq<Offer>, k: nat)
    requires k < |s|
    ensures multiset(s) == multiset(s[..k] + s[k + 1..]) + multiset{s[k]}
  {
    assert s == s[..k] + [s[k]] + s[k + 1..];
  }

  /** A common element cancels from both sides of a multiset equation. */
  lemma CancelOne(a: multiset<Offer>, b: multiset<Offer>, x: Offer)
    requires a + multiset{x} == b + multiset{x}
    ensures a == b
  {
    assert forall y :: a[y] == (a + multiset{x})[y] - multiset{x}[y];
  }

  /** Reordering the offers, and changing nothing that is compared, is a PATCH. */
  lemma ReorderedOffersArePatch(original: Event, offers: seq<Offer>)
    requires multiset(offers) == multiset(original.offers)
    ensures Classify(original, original.(offers := offers)) == Patch
  {
    OffersTotalPermutation(offers, original.offers);
  }
}
