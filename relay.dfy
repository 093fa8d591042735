/*
 * The relay side of the exchange: a commodity passes from a member to a
 * local mandi, on to a destination mandi and on to a wholesaler. Each hop
 * is the same rule applied to two neighbouring participants; its outcome
 * is written into the commodity rather than thrown.
 */
module RelayTransfer {
  import opened Entities

  // ---------------------------------------------------------------------
  // The rule of one hop, on values
  // ---------------------------------------------------------------------

  /** The two quantities of a participant that a hop reads and writes. */
  datatype Ledger = Ledger(qr1: int, tc1: int)

  /** The hop's check: the destination can take `qs` and the source can pass `qs` on. */
  predicate CanRelay(source: Ledger, dest: Ledger, qs: int)
  {
    dest.qr1 - qs >= 0 && source.tc1 - qs >= 0
  }

  datatype Transferred = Transferred(source: Ledger, dest: Ledger)

  /**
   * The ledgers after a hop moving `qs` from `source` to `dest`. The
   * contract fixes the result: the source's `qr1` and, on success, the
   * destination's `tc1` are given, and the two conservation laws give the
   * rest. A failed hop changes nothing.
   */
  function Transfer(source: Ledger, dest: Ledger, qs: int): (r: Transferred)
    ensures r.source.qr1 == source.qr1
    ensures r.source.tc1 + r.dest.tc1 == source.tc1 + dest.tc1
    ensures r.dest.qr1 + r.dest.tc1 == dest.qr1 + dest.tc1
    ensures CanRelay(source, dest, qs) ==>
      r.dest.tc1 == dest.tc1 + qs && r.source.tc1 >= 0 && r.dest.qr1 >= 0
    ensures !CanRelay(source, dest, qs) ==> r == Transferred(source, dest)
  {
    if CanRelay(source, dest, qs) then
      Transferred(Ledger(source.qr1, source.tc1 - qs), Ledger(dest.qr1 - qs, dest.tc1 + qs))
    else
      Transferred(source, dest)
  }

  // ---------------------------------------------------------------------
  // The hop on the participants and the commodity
  // ---------------------------------------------------------------------

  /**
   * What one hop from `source` to `dest` leaves behind: the two ledgers as
   * Transfer gives them, and the commodity stamped with where it came from,
   * where it went and at what price, or with the failure sentinels.
   */
  twostate predicate Relayed(source: Holder, dest: Holder, commodity: Commodity, qs: int)
    reads source, dest, commodity
  {
    var before := Transferred(Ledger(old(source.qr1), old(source.tc1)), Ledger(old(dest.qr1), old(dest.tc1)));
    && Transferred(Ledger(source.qr1, source.tc1), Ledger(dest.qr1, dest.tc1))
       == Transfer(before.source, before.dest, qs)
    && if CanRelay(before.source, before.dest, qs) then
         && commodity.cameFrom == source.name
         && commodity.sendingTo == dest.name
         && commodity.priceOfCom == old(dest.p1)
         && commodity.transferStatus == TransferSuccessful
       else
         && commodity.cameFrom == NoHolder
         && commodity.sendingTo == NoHolder
         && commodity.priceOfCom == 0
         && commodity.transferStatus == TransferFailed
  }

  /**
   * One hop of the relay. The quantity `qs` is not checked for sign, as in
   * the transactions themselves.
   */
  method Relay(source: Holder, dest: Holder, commodity: Commodity, qs: int)
    requires source != dest
    modifies source`tc1, dest`qr1, dest`tc1
    modifies commodity`cameFrom, commodity`sendingTo, commodity`priceOfCom, commodity`transferStatus
    ensures Relayed(source, dest, commodity, qs)
  {
    if dest.qr1 - qs >= 0 && source.tc1 - qs >= 0 {
      dest.qr1 := dest.qr1 - qs;
      source.tc1 := source.tc1 - qs;
      commodity.cameFrom := source.name;
      commodity.sendingTo := dest.name;
      commodity.priceOfCom := dest.p1;
      commodity.transferStatus := TransferSuccessful;
      dest.tc1 := dest.tc1 + qs;
    } else {
      commodity.transferStatus := TransferFailed;
      commodity.cameFrom := NoHolder;
      commodity.sendingTo := NoHolder;
      commodity.priceOfCom := 0;
    }
  }

  /** The first hop: a member sells to a local mandi. */
  method SellToLocalMandi(member: Holder, localMandi: Holder, commodity: Commodity, qs1: int)
    requires member.role == Member && localMandi.role == LocalMandi
    modifies member`tc1, localMandi`qr1, localMandi`tc1
    modifies commodity`cameFrom, commodity`sendingTo, commodity`priceOfCom, commodity`transferStatus
    ensures Relayed(member, localMandi, commodity, qs1)
  {
    Relay(member, localMandi, commodity, qs1);
  }

  /** The second hop: a local mandi sells to a destination mandi. */
  method SellToDestinationMandi(localMandi: Holder, destinationMandi: Holder, commodity: Commodity, qs1: int)
    requires localMandi.role == LocalMandi && destinationMandi.role == DestinationMandi
    modifies localMandi`tc1, destinationMandi`qr1, destinationMandi`tc1
    modifies commodity`cameFrom, commodity`sendingTo, commodity`priceOfCom, commodity`transferStatus
    ensures Relayed(localMandi, destinationMandi, commodity, qs1)
  {
    Relay(localMandi, destinationMandi, commodity, qs1);
  }

  /** The third hop: a destination mandi sells to a wholesaler. */
  method SellToWholesaler(destinationMandi: Holder, wholesaler: Holder, commodity: Commodity, qs1: int)
    requires destinationMandi.role == DestinationMandi && wholesaler.role == Wholesaler
    modifies destinationMandi`tc1, wholesaler`qr1, wholesaler`tc1
    modifies commodity`cameFrom, commodity`sendingTo, commodity`priceOfCom, commodity`transferStatus
    ensures Relayed(destinationMandi, wholesaler, commodity, qs1)
  {
    Relay(destinationMandi, wholesaler, commodity, qs1);
  }

  // ---------------------------------------------------------------------
  // The whole chain, on values
  // ---------------------------------------------------------------------

  /** The ledgers of the four participants along the chain. */
  datatype Chain = Chain(member: Ledger, localMandi: Ledger, destinationMandi: Ledger, wholesaler: Ledger)

  datatype Hop = ToLocalMandi | ToDestinationMandi | ToWholesaler

  /** A request to run one hop with quantity `qs`. */
  datatype Order = Order(hop: Hop, qs: int)

  /** The goods held for passing on, summed along the chain. */
  function InTransit(c: Chain): int
  {
    c.member.tc1 + c.localMandi.tc1 + c.destinationMandi.tc1 + c.wholesaler.tc1
  }

  /** Every quantity along the chain is non-negative. */
  predicate NonNegative(c: Chain)
  {
    && c.member.qr1 >= 0 && c.member.tc1 >= 0
    && c.localMandi.qr1 >= 0 && c.localMandi.tc1 >= 0
    && c.destinationMandi.qr1 >= 0 && c.destinationMandi.tc1 >= 0
    && c.wholesaler.qr1 >= 0 && c.wholesaler.tc1 >= 0
  }

  /**
   * One hop applied to the chain: the source of each hop is the destination
   * of the one before, so what a hop adds to its destination's `tc1` is what
   * the next hop checks and takes.
   */
  function Step(c: Chain, o: Order): (d: Chain)
    ensures InTransit(d) == InTransit(c)
    ensures d.member.qr1 == c.member.qr1
    ensures NonNegative(c) && o.qs >= 0 ==> NonNegative(d)
  {
    match o.hop
    case ToLocalMandi =>
      var t := Transfer(c.member, c.localMandi, o.qs);
      c.(member := t.source, localMandi := t.dest)
    case ToDestinationMandi =>
      var t := Transfer(c.localMandi, c.destinationMandi, o.qs);
      c.(localMandi := t.source, destinationMandi := t.dest)
    case ToWholesaler =>
      var t := Transfer(c.destinationMandi, c.wholesaler, o.qs);
      c.(destinationMandi := t.source, wholesaler := t.dest)
  }

  /** The hops of `orders`, one after another. */
  function Run(c: Chain, orders: seq<Order>): Chain
    decreases |orders|
  {
    if orders == [] then c else Run(Step(c, orders[0]), orders[1..])
  }

  /** No run of hops creates or destroys goods in transit. */
  lemma {:induction false} RunConservesInTransit(c: Chain, orders: seq<Order>)
    ensures InTransit(Run(c, orders)) == InTransit(c)
    decreases |orders|
  {
    if orders != [] {
      RunConservesInTransit(Step(c, orders[0]), orders[1..]);
    }
  }

  /** With non-negative quantities requested, no quantity along the chain goes negative. */
  lemma {:induction false} RunKeepsNonNegative(c: Chain, orders: seq<Order>)
    requires NonNegative(c)
    requires forall i :: 0 <= i < |orders| ==> orders[i].qs >= 0
    ensures NonNegative(Run(c, orders))
    decreases |orders|
  {
    if orders != [] {
      RunKeepsNonNegative(Step(c, orders[0]), orders[1..]);
    }
  }

  /**
   * The sign of the quantity is needed above: a negative quantity passes
   * the check and drives the destination's `tc1` below zero.
   */
  lemma NegativeQuantityUnderflows()
    ensures var c := Chain(Ledger(0, 0), Ledger(0, 0), Ledger(0, 0), Ledger(0, 0));
            NonNegative(c) && !NonNegative(Step(c, Order(ToLocalMandi, -1)))
  {
  }

  /**
   * Three hops of the same quantity `q` carry it from the member to the
   * wholesaler: the second and third hops pass their check because the
   * previous hop put `q` into their source's `tc1`, and each mandi ends with
   * the `tc1` it started with.
   */
  lemma ChainDelivers(c: Chain, q: int)
    requires c.member.tc1 >= q
    requires c.localMandi.qr1 >= q && c.destinationMandi.qr1 >= q && c.wholesaler.qr1 >= q
    requires c.localMandi.tc1 >= 0 && c.destinationMandi.tc1 >= 0
    ensures Run(c, [Order(ToLocalMandi, q), Order(ToDestinationMandi, q), Order(ToWholesaler, q)])
         == Chain(Ledger(c.member.qr1, c.member.tc1 - q),
                  Ledger(c.localMandi.qr1 - q, c.localMandi.tc1),
                  Ledger(c.destinationMandi.qr1 - q, c.destinationMandi.tc1),
                  Ledger(c.wholesaler.qr1 - q, c.wholesaler.tc1 + q))
  {
    var orders := [Order(ToLocalMandi, q), Order(ToDestinationMandi, q), Order(ToWholesaler, q)];
    var c1 := Step(c, orders[0]);
    assert c1 == c.(member := Ledger(c.member.qr1, c.member.tc1 - q),
                    localMandi := Ledger(c.localMandi.qr1 - q, c.localMandi.tc1 + q));
    var c2 := Step(c1, orders[1]);
    assert c2 == c1.(localMandi := Ledger(c.localMandi.qr1 - q, c.localMandi.tc1),
                     destinationMandi := Ledger(c.destinationMandi.qr1 - q, c.destinationMandi.tc1 + q));
    var c3 := Step(c2, orders[2]);
    assert c3 == c2.(destinationMandi := Ledger(c.destinationMandi.qr1 - q, c.destinationMandi.tc1),
                     wholesaler := Ledger(c.wholesaler.qr1 - q, c.wholesaler.tc1 + q));
    assert orders[1..][1..][1..] == [];
    assert Run(c, orders) == Run(c1, orders[1..]) == Run(c2, orders[1..][1..]) == c3;
  }
}
