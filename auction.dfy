/*
 * The auction side of the exchange: placing an offer on a listing and
 * closing the bidding. Closing sorts the offers by descending bid price,
 * takes the first, and when it meets the reserve price moves the seller's
 * on-hand quantity into the buyer's ledger and hands the commodity over.
 */
module Auction {
  import opened Entities

  // ---------------------------------------------------------------------
  // The order closing leaves the offers in
  // ---------------------------------------------------------------------

  /** The offers are in descending order of bid price. */
  predicate SortedByBid(s: seq<Offer>)
  {
    forall i, j :: 0 <= i < j < |s| ==> s[i].bidPrice >= s[j].bidPrice
  }

  /**
   * Puts `x` after every offer of `r` that bids at least as much, so an
   * offer never overtakes an equal bid that came before it.
   */
  function InsertByBid(r: seq<Offer>, x: Offer): (t: seq<Offer>)
    ensures |t| == |r| + 1
  {
    if r == [] then [x]
    else if r[0].bidPrice < x.bidPrice then [x] + r
    else [r[0]] + InsertByBid(r[1..], x)
  }

  /** No offer bids more than `b`. */
  predicate BidsAtMost(s: seq<Offer>, b: int)
  {
    forall i :: 0 <= i < |s| ==> s[i].bidPrice <= b
  }

  /** Inserting loses and duplicates no offer. */
  lemma {:induction false} InsertIsPermutation(r: seq<Offer>, x: Offer)
    ensures multiset(InsertByBid(r, x)) == multiset(r) + multiset{x}
  {
    if r != [] && r[0].bidPrice >= x.bidPrice {
      InsertIsPermutation(r[1..], x);
      assert r == [r[0]] + r[1..];
    }
  }

  /** Inserting under a bound keeps every bid under it. */
  lemma {:induction false} InsertBidsAtMost(r: seq<Offer>, x: Offer, b: int)
    requires BidsAtMost(r, b) && x.bidPrice <= b
    ensures BidsAtMost(InsertByBid(r, x), b)
  {
    if r != [] && r[0].bidPrice >= x.bidPrice {
      InsertBidsAtMost(r[1..], x, b);
    }
  }

  /** Inserting into offers sorted by bid keeps them sorted. */
  lemma {:induction false} InsertKeepsSorted(r: seq<Offer>, x: Offer)
    requires SortedByBid(r)
    ensures SortedByBid(InsertByBid(r, x))
  {
    if r != [] && r[0].bidPrice >= x.bidPrice {
      InsertKeepsSorted(r[1..], x);
      InsertBidsAtMost(r[1..], x, r[0].bidPrice);
    }
  }

  /**
   * The offers sorted by descending bid price, equal bids in the order they
   * were made. A stable sort has exactly one result, so this is what the
   * stable Array.prototype.sort of ECMAScript 2019 and later produces with
   * the comparator `b.bidPrice - a.bidPrice`.
   */
  function SortByBid(s: seq<Offer>): (r: seq<Offer>)
    ensures |r| == |s|
    decreases |s|
  {
    if s == [] then [] else InsertByBid(SortByBid(s[..|s| - 1]), s[|s| - 1])
  }

  /** Sorting reorders the offers: it loses and duplicates none. */
  lemma {:induction false} SortIsPermutation(s: seq<Offer>)
    ensures multiset(SortByBid(s)) == multiset(s)
  {
    if s != [] {
      var n := |s| - 1;
      SortIsPermutation(s[..n]);
      InsertIsPermutation(SortByBid(s[..n]), s[n]);
      assert s == s[..n] + [s[n]];
    }
  }

  /** Sorting leaves the offers in descending order of bid price. */
  lemma {:induction false} SortIsSorted(s: seq<Offer>)
    ensures SortedByBid(SortByBid(s))
  {
    if s != [] {
      var n := |s| - 1;
      SortIsSorted(s[..n]);
      InsertKeepsSorted(SortByBid(s[..n]), s[n]);
    }
  }

  /** The offers of `s` that bid exactly `p`, in their order in `s`. */
  function WithBid(s: seq<Offer>, p: int): seq<Offer>
  {
    if s == [] then [] else (if s[0].bidPrice == p then [s[0]] else []) + WithBid(s[1..], p)
  }

  lemma {:induction false} WithBidAppend(a: seq<Offer>, b: seq<Offer>, p: int)
    ensures WithBid(a + b, p) == WithBid(a, p) + WithBid(b, p)
  {
    if a == [] {
      assert a + b == b;
    } else {
      assert (a + b)[1..] == a[1..] + b;
      WithBidAppend(a[1..], b, p);
    }
  }

  lemma {:induction false} WithBidNone(s: seq<Offer>, p: int)
    requires forall i :: 0 <= i < |s| ==> s[i].bidPrice < p
    ensures WithBid(s, p) == []
  {
    if s != [] {
      WithBidNone(s[1..], p);
    }
  }

  /** Inserting an offer puts it after every earlier offer with the same bid. */
  lemma {:induction false} InsertKeepsOrderAmongEquals(r: seq<Offer>, x: Offer, p: int)
    requires SortedByBid(r)
    ensures WithBid(InsertByBid(r, x), p) == WithBid(r, p) + (if x.bidPrice == p then [x] else [])
  {
    if r == [] {
      assert WithBid([x], p) == (if x.bidPrice == p then [x] else []) + WithBid([], p);
    } else if r[0].bidPrice < x.bidPrice {
      if x.bidPrice == p {
        WithBidNone(r, p);
      }
      assert ([x] + r)[1..] == r;
    } else {
      var rest := InsertByBid(r[1..], x);
      InsertKeepsOrderAmongEquals(r[1..], x, p);
      assert ([r[0]] + rest)[1..] == rest;
    }
  }

  /**
   * Sorting is stable: for every price, the offers bidding that price keep
   * the order in which they were made.
   */
  lemma {:induction false} SortIsStable(s: seq<Offer>, p: int)
    ensures WithBid(SortByBid(s), p) == WithBid(s, p)
  {
    if s != [] {
      var n := |s| - 1;
      SortIsStable(s[..n], p);
      SortIsSorted(s[..n]);
      InsertKeepsOrderAmongEquals(SortByBid(s[..n]), s[n], p);
      assert s == s[..n] + [s[n]];
      WithBidAppend(s[..n], [s[n]], p);
      assert WithBid([s[n]], p) == (if s[n].bidPrice == p then [s[n]] else []) + WithBid([], p);
    }
  }

  // ---------------------------------------------------------------------
  // The offer closing picks
  // ---------------------------------------------------------------------

  /** `s[i]` bids the most, and every offer made before it bids strictly less. */
  predicate IsFirstMax(s: seq<Offer>, i: int)
  {
    && 0 <= i < |s|
    && (forall j :: 0 <= j < |s| ==> s[j].bidPrice <= s[i].bidPrice)
    && (forall j :: 0 <= j < i ==> s[j].bidPrice < s[i].bidPrice)
  }

  /** The position of the highest bid, the earliest one among equal bids. */
  function FirstMax(s: seq<Offer>): (i: nat)
    requires |s| > 0
    ensures IsFirstMax(s, i)
    decreases |s|
  {
    if |s| == 1 then 0
    else
      var k := FirstMax(s[..|s| - 1]);
      if s[k].bidPrice >= s[|s| - 1].bidPrice then k else |s| - 1
  }

  /** The first offer after sorting is the earliest of the highest bids. */
  lemma {:induction false} SortHeadIsFirstMax(s: seq<Offer>)
    requires |s| > 0
    ensures SortByBid(s)[0] == s[FirstMax(s)]
  {
    var n := |s| - 1;
    if n > 0 {
      SortHeadIsFirstMax(s[..n]);
    }
  }

  /** In offers already sorted by bid the earliest highest bid is the first one. */
  lemma FirstMaxOfSorted(s: seq<Offer>)
    requires |s| > 0 && SortedByBid(s)
    ensures FirstMax(s) == 0
  {
  }

  /** The state closing gives a listing with offers `s` and the given reserve price. */
  function Clearing(s: seq<Offer>, reservePrice: int): ListingState
  {
    if |s| > 0 && SortByBid(s)[0].bidPrice >= reservePrice then Sold else ReserveNotMet
  }

  /** A listing is sold exactly when some offer meets the reserve price. */
  lemma ClearingSoldIff(s: seq<Offer>, reservePrice: int)
    ensures Clearing(s, reservePrice) == Sold <==>
            exists i :: 0 <= i < |s| && s[i].bidPrice >= reservePrice
  {
    if |s| > 0 {
      SortHeadIsFirstMax(s);
      var k := FirstMax(s);
      if Clearing(s, reservePrice) == Sold {
        assert s[k].bidPrice >= reservePrice;
      }
    }
  }

  // ---------------------------------------------------------------------
  // Transactions
  // ---------------------------------------------------------------------

  /** Sorts the offers by descending bid price, keeping equal bids in order. */
  method SortOffers(s: seq<Offer>) returns (r: seq<Offer>)
    ensures r == SortByBid(s)
  {
    r := [];
    var i := 0;
    while i < |s|
      invariant 0 <= i <= |s|
      invariant r == SortByBid(s[..i])
    {
      var x := s[i];
      var p := 0;
      while p < |r| && r[p].bidPrice >= x.bidPrice
        invariant 0 <= p <= |r|
        invariant forall k :: 0 <= k < p ==> r[k].bidPrice >= x.bidPrice
      {
        p := p + 1;
      }
      InsertAt(r, x, p);
      assert s[..i + 1][..i] == s[..i];
      r := r[..p] + [x] + r[p..];
      i := i + 1;
    }
    assert s[..|s|] == s;
  }

  /** Inserting by bid puts the offer in front of the first strictly lower bid. */
  lemma {:induction false} InsertAt(r: seq<Offer>, x: Offer, p: int)
    requires 0 <= p <= |r|
    requires forall k :: 0 <= k < p ==> r[k].bidPrice >= x.bidPrice
    requires p == |r| || r[p].bidPrice < x.bidPrice
    ensures InsertByBid(r, x) == r[..p] + [x] + r[p..]
  {
    if p == 0 {
      assert r[..0] + [x] + r[0..] == [x] + r;
    } else {
      InsertAt(r[1..], x, p - 1);
      assert r[..p] + [x] + r[p..] == [r[0]] + (r[1..][..p - 1] + [x] + r[1..][p - 1..]);
    }
  }

  /** Adds an offer to its listing, which must still be for sale. */
  method MakeOffer(offer: Offer) returns (r: Outcome)
    modifies offer.listing
    ensures old(offer.listing.state) != ForSale ==>
      r == Fail(ListingNotForSale) && unchanged(offer.listing)
    ensures old(offer.listing.state) == ForSale ==>
      && r == Pass
      && offer.listing.offers == Some(Items(old(offer.listing.offers)) + [offer])
      && offer.listing.state == ForSale
      && offer.listing.reservePrice == old(offer.listing.reservePrice)
  {
    var listing := offer.listing;
    if listing.state != ForSale {
      return Fail(ListingNotForSale);
    }
    if listing.offers.None? {
      listing.offers := Some([]);
    }
    listing.offers := Some(listing.offers.value + [offer]);
    r := Pass;
  }

  /** The member whose offer would win the listing, if it has any offers. */
  function WinningBidder(offers: Option<seq<Offer>>): set<Holder>
  {
    var s := Items(offers);
    if |s| > 0 then {s[FirstMax(s)].member} else {}
  }

  /**
   * The ledger of `h` after a settlement moving `k` from `seller` to
   * `buyer`; it holds whether or not buyer and seller are one member.
   */
  twostate predicate Settled(h: Holder, seller: Holder, buyer: Holder, k: int)
    reads h
  {
    && h.q1 == (if h == seller then 0 else old(h.q1))
    && h.qr1 == old(h.qr1) - (if h == buyer then k else 0)
    && h.tc1 == old(h.tc1) + (if h == buyer then k else 0)
    && h.p1 == old(h.p1)
  }

  /**
   * Closes the bidding on a listing that is for sale. The offers end up
   * sorted; when the highest bid meets the reserve price the listing is
   * sold, the seller's whole on-hand quantity `q1` moves into the buyer's
   * ledger (unchecked, so the buyer's `qr1` may go negative), the buyer
   * becomes the owner and the offers are cleared.
   */
  method CloseBidding(listing: Listing) returns (r: Outcome)
    modifies listing, listing.commodity`owner, listing.commodity.owner, WinningBidder(listing.offers)
    ensures listing.reservePrice == old(listing.reservePrice)
    ensures old(listing.state) != ForSale ==>
      && r == Fail(ListingNotForSale)
      && unchanged(listing, listing.commodity, old(listing.commodity.owner))
      && unchanged(WinningBidder(old(listing.offers)))
    ensures old(listing.state) == ForSale ==>
      && r == Pass
      && listing.state == Clearing(Items(old(listing.offers)), old(listing.reservePrice))
    ensures old(listing.state) == ForSale && listing.state == Sold ==>
      var s := Items(old(listing.offers));
      var buyer := s[FirstMax(s)].member;
      var seller := old(listing.commodity.owner);
      && listing.offers == None
      && listing.commodity.owner == buyer
      && Settled(seller, seller, buyer, old(seller.q1))
      && Settled(buyer, seller, buyer, old(seller.q1))
    ensures old(listing.state) == ForSale && listing.state == ReserveNotMet ==>
      && listing.offers == (if old(listing.offers).None? then None
                            else Some(SortByBid(Items(old(listing.offers)))))
      && unchanged(listing.commodity, old(listing.commodity.owner))
      && unchanged(WinningBidder(old(listing.offers)))
  {
    if listing.state != ForSale {
      return Fail(ListingNotForSale);
    }
    listing.state := ReserveNotMet;
    if listing.offers.Some? && |listing.offers.value| > 0 {
      ghost var s := listing.offers.value;
      var sorted := SortOffers(listing.offers.value);
      SortHeadIsFirstMax(s);
      listing.offers := Some(sorted);
      var highestOffer := sorted[0];
      if highestOffer.bidPrice >= listing.reservePrice {
        listing.state := Sold;
        var buyer := highestOffer.member;
        var seller := listing.commodity.owner;
        buyer.qr1 := buyer.qr1 - seller.q1;
        buyer.tc1 := buyer.tc1 + seller.q1;
        seller.q1 := 0;
        listing.commodity.owner := buyer;
        listing.offers := None;
      }
    }
    r := Pass;
  }

  /**
   * Closing is final: once a listing has been closed, closing it again
   * fails and changes nothing, so a sale is never settled twice.
   */
  method CloseBiddingTwice(listing: Listing) returns (first: Outcome, second: Outcome)
    requires listing.state == ForSale
    modifies listing, listing.commodity`owner, listing.commodity.owner, WinningBidder(listing.offers)
    ensures first == Pass && second == Fail(ListingNotForSale)
    ensures listing.reservePrice == old(listing.reservePrice)
    ensures listing.state == Clearing(Items(old(listing.offers)), old(listing.reservePrice))
    ensures listing.state == Sold ==>
      var s := Items(old(listing.offers));
      var buyer := s[FirstMax(s)].member;
      var seller := old(listing.commodity.owner);
      && listing.offers == None
      && listing.commodity.owner == buyer
      && Settled(seller, seller, buyer, old(seller.q1))
      && Settled(buyer, seller, buyer, old(seller.q1))
    ensures listing.state == ReserveNotMet ==>
      && listing.offers == (if old(listing.offers).None? then None
                            else Some(SortByBid(Items(old(listing.offers)))))
      && unchanged(listing.commodity, old(listing.commodity.owner))
      && unchanged(WinningBidder(old(listing.offers)))
  {
    ghost var s := Items(listing.offers);
    first := CloseBidding(listing);
    if listing.offers.Some? && |listing.offers.value| > 0 {
      SortIsSorted(s);
      FirstMaxOfSorted(SortByBid(s));
      SortHeadIsFirstMax(s);
      assert WinningBidder(listing.offers) == WinningBidder(old(listing.offers));
    }
    ghost var closed := listing.state;
    second := CloseBidding(listing);
    assert listing.state == closed;
  }
}
