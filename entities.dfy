/*
 * The entities the trading transactions act on: participants that hold
 * quantities (members and the three kinds of mandi), commodities, listings
 * and the offers made on them. The participant schema's quantities and prices
 * are JavaScript numbers; here they are unbounded integers.
 */
module Entities {

  datatype Option<T> = None | Some(value: T)

  /** The three states of a commodity listing. */
  datatype ListingState = ForSale | Sold | ReserveNotMet

  /** The error a transaction throws back to its caller. */
  datatype Error = ListingNotForSale

  /** Whether a transaction completed or threw. */
  datatype Outcome = Pass | Fail(error: Error)

  /**
   * The participant types of the fixed relay chain. The host's schema gives
   * each of them its own type; here the type is a tag on one class.
   */
  datatype Role = Member | LocalMandi | DestinationMandi | Wholesaler

  /** Provenance values a relay hop writes into a commodity. */
  const TransferSuccessful: string := "Transfer Successful"
  const TransferFailed: string := "Transfer failed"
  const NoHolder: string := "NULL"

  /**
   * A participant. `qr1` is what it can still receive, `tc1` what it holds
   * for passing on, `p1` the unit price it quotes as a buyer, and `q1` the
   * quantity a member has on hand as a seller at auction.
   */
  class Holder {
    const role: Role
    const name: string
    var q1: int
    var qr1: int
    var tc1: int
    var p1: int

    constructor (role: Role, name: string, q1: int, qr1: int, tc1: int, p1: int)
      ensures this.role == role && this.name == name
      ensures this.q1 == q1 && this.qr1 == qr1 && this.tc1 == tc1 && this.p1 == p1
    {
      this.role := role;
      this.name := name;
      this.q1 := q1;
      this.qr1 := qr1;
      this.tc1 := tc1;
      this.p1 := p1;
    }
  }

  /** A commodity: its owner and the provenance stamped by the last relay hop. */
  class Commodity {
    var owner: Holder
    var cameFrom: string
    var sendingTo: string
    var priceOfCom: int
    var transferStatus: string

    constructor (owner: Holder)
      ensures this.owner == owner
      ensures cameFrom == "" && sendingTo == "" && priceOfCom == 0 && transferStatus == ""
    {
      this.owner := owner;
      cameFrom := "";
      sendingTo := "";
      priceOfCom := 0;
      transferStatus := "";
    }
  }

  /** A commodity offered for sale; `offers` is None where the record holds null. */
  class Listing {
    const commodity: Commodity
    var state: ListingState
    var reservePrice: int
    var offers: Option<seq<Offer>>

    constructor (commodity: Commodity, reservePrice: int)
      ensures this.commodity == commodity && this.reservePrice == reservePrice
      ensures state == ForSale && offers == None
    {
      this.commodity := commodity;
      this.reservePrice := reservePrice;
      state := ForSale;
      offers := None;
    }
  }

  /** A bid by `member` on `listing`; offers are never changed once made. */
  datatype Offer = Offer(listing: Listing, member: Holder, bidPrice: int)

  /** The offers of a listing, a null collection read as an empty one. */
  function Items(offers: Option<seq<Offer>>): seq<Offer>
  {
    if offers.Some? then offers.value else []
  }
}
