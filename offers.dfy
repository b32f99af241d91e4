/** The offers store: a map from offer type to the offer, filled in place. */
module OffersModel {
  import opened TripTypes

  /** The types that occur in a sequence of offers. */
  function TypesOf(xs: seq<Offer>): set<string>
  {
    set i | 0 <= i < |xs| :: xs[i].offerType
  }

  /** The map after setting each offer of `xs`, in order, under its type:
      a left fold of single-key updates starting from `m`. */
  function Stored(m: map<string, Offer>, xs: seq<Offer>): map<string, Offer>
  {
    if |xs| == 0 then m
    else Stored(m, xs[..|xs| - 1])[xs[|xs| - 1].offerType := xs[|xs| - 1]]
  }

  /** The keys after `setOffers` are the old keys together with every type in `xs`. */
  lemma {:induction false} StoredKeys(m: map<string, Offer>, xs: seq<Offer>)
    ensures Stored(m, xs).Keys == m.Keys + TypesOf(xs)
  {
    if |xs| > 0 {
      var init := xs[..|xs| - 1];
      StoredKeys(m, init);
      assert TypesOf(xs) == TypesOf(init) + {xs[|xs| - 1].offerType} by {
        forall t | t in TypesOf(xs) ensures t in TypesOf(init) + {xs[|xs| - 1].offerType} {
          var i :| 0 <= i < |xs| && xs[i].offerType == t;
          if i < |xs| - 1 { assert init[i] == xs[i]; }
        }
        forall t | t in TypesOf(init) ensures t in TypesOf(xs) {
          var i :| 0 <= i < |init| && init[i].offerType == t;
          assert xs[i] == init[i];
        }
      }
    }
  }

  /** Last write wins: an offer that no later offer of `xs` shares a type with
      is the value stored under its type. */
  lemma {:induction false} StoredLastWins(m: map<string, Offer>, xs: seq<Offer>, i: nat)
    requires i < |xs|
    requires forall j :: i < j < |xs| ==> xs[j].offerType != xs[i].offerType
    ensures xs[i].offerType in Stored(m, xs)
    ensures Stored(m, xs)[xs[i].offerType] == xs[i]
  {
    var init := xs[..|xs| - 1];
    if i < |xs| - 1 {
      forall j | i < j < |init| ensures init[j].offerType != init[i].offerType {
        assert init[j] == xs[j];
      }
      StoredLastWins(m, init, i);
      assert init[i] == xs[i];
    }
  }

  /** Keys whose type does not occur in `xs` keep their presence and their value. */
  lemma {:induction false} StoredFrame(m: map<string, Offer>, xs: seq<Offer>, t: string)
    requires forall j :: 0 <= j < |xs| ==> xs[j].offerType != t
    ensures t in Stored(m, xs) <==> t in m
    ensures t in m ==> Stored(m, xs)[t] == m[t]
  {
    if |xs| > 0 {
      var init := xs[..|xs| - 1];
      forall j | 0 <= j < |init| ensures init[j].offerType != t {
        assert init[j] == xs[j];
      }
      StoredFrame(m, init, t);
    }
  }

  /** Every type in `xs` ends up bound to some offer of `xs` of that type. */
  lemma {:induction false} StoredFromInput(m: map<string, Offer>, xs: seq<Offer>, t: string)
    requires t in TypesOf(xs)
    ensures t in Stored(m, xs)
    ensures Stored(m, xs)[t].offerType == t
    ensures Stored(m, xs)[t] in xs
  {
    var last :| 0 <= last < |xs| && xs[last].offerType == t
                && forall j :: last < j < |xs| ==> xs[j].offerType != t
      by { LastIndexExists(xs, t); }
    StoredLastWins(m, xs, last);
  }

  /** Some occurrence of `t` in `xs` is the last one. */
  lemma {:induction false} LastIndexExists(xs: seq<Offer>, t: string)
    requires t in TypesOf(xs)
    ensures exists last :: 0 <= last < |xs| && xs[last].offerType == t
                           && forall j :: last < j < |xs| ==> xs[j].offerType != t
  {
    if xs[|xs| - 1].offerType == t {
      assert 0 <= |xs| - 1 < |xs| && xs[|xs| - 1].offerType == t;
    } else {
      var init := xs[..|xs| - 1];
      var i :| 0 <= i < |xs| && xs[i].offerType == t;
      assert i < |init| && init[i] == xs[i];
      LastIndexExists(init, t);
      var last :| 0 <= last < |init| && init[last].offerType == t
                  && forall j :: last < j < |init| ==> init[j].offerType != t;
      assert xs[last] == init[last];
      forall j | last < j < |xs| ensures xs[j].offerType != t {
        if j < |init| { assert xs[j] == init[j]; }
      }
    }
  }

  /** `setOffers([])` leaves the map as it was. */
  lemma StoredEmpty(m: map<string, Offer>)
    ensures Stored(m, []) == m
  {
  }

  /** Setting the same offers a second time changes nothing. */
  lemma StoredIdempotent(m: map<string, Offer>, xs: seq<Offer>)
    ensures Stored(Stored(m, xs), xs) == Stored(m, xs)
  {
    var once := Stored(m, xs);
    var twice := Stored(once, xs);
    StoredKeys(m, xs);
    StoredKeys(once, xs);
    forall t | t in twice.Keys ensures twice[t] == once[t] {
      if t in TypesOf(xs) {
        var last :| 0 <= last < |xs| && xs[last].offerType == t
                    && forall j :: last < j < |xs| ==> xs[j].offerType != t
          by { LastIndexExists(xs, t); }
        StoredLastWins(m, xs, last);
        StoredLastWins(once, xs, last);
      } else {
        forall j | 0 <= j < |xs| ensures xs[j].offerType != t {
          assert xs[j].offerType in TypesOf(xs);
        }
        StoredFrame(once, xs, t);
      }
    }
  }

  /** The store of `src/model/offers.js`: one map field updated in place. */
  class Offers {
    var offers: map<string, Offer>

    /** A new store is empty. */
    constructor ()
      ensures offers == map[]
    {
      offers := map[];
    }

    /** Sets each offer under its type, in order, without clearing the map first. */
    method SetOffers(xs: seq<Offer>)
      modifies this
      ensures offers == Stored(old(offers), xs)
      ensures offers.Keys == old(offers).Keys + TypesOf(xs)
    {
      ghost var before := offers;
      var i := 0;
      while i < |xs|
        invariant 0 <= i <= |xs|
        invariant offers == Stored(before, xs[..i])
      {
        assert xs[..i + 1][..i] == xs[..i];
        offers := offers[xs[i].offerType := xs[i]];
        i := i + 1;
      }
      assert xs[..|xs|] == xs;
      StoredKeys(before, xs);
    }

    /** Returns the stored map and changes nothing. */
    method GetOffers() returns (r: map<string, Offer>)
      ensures r == offers
    {
      r := offers;
    }
  }
}
