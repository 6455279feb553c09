/**
 * Market-order requests, the broker's reply to them, and the order log row
 * written for an accepted order.
 */
module Orders {
  import opened Options
  import opened Signals

  /** The trade retcode the broker returns for a completed request. */
  const TradeRetcodeDone: int := 10009

  /**
   * The fields of a deal request the agent chooses. Fields that are the same
   * for every request (action, deviation, expiry and filling modes) are left
   * out.
   */
  datatype OrderRequest = OrderRequest(
    symbol: string,
    side: Side,
    volume: real,
    price: real,
    sl: real,
    tp: real)

  /**
   * A market order at `price` with stop loss and take profit `stop` away on
   * either side: above the price for the side that profits from a rise,
   * below it for the side that profits from a fall.
   */
  function BuildOrder(symbol: string, volume: real, side: Side, price: real, stop: real): (r: OrderRequest)
    ensures r.symbol == symbol && r.volume == volume && r.side == side && r.price == price
    ensures r.tp - r.price == r.price - r.sl
    ensures side == Buy ==> r.tp - r.price == stop
    ensures side == Sell ==> r.price - r.tp == stop
  {
    match side
    case Buy => OrderRequest(symbol, side, volume, price, price - stop, price + stop)
    case Sell => OrderRequest(symbol, side, volume, price, price + stop, price - stop)
  }

  /** The stop distance an order carries: how far its take profit lies in its favour. */
  function StopOf(r: OrderRequest): real
  {
    match r.side
    case Buy => r.tp - r.price
    case Sell => r.price - r.tp
  }

  /** The stop distance given when building an order can be read back from it. */
  lemma {:induction false} StopRoundTrip(symbol: string, volume: real, side: Side, price: real, stop: real)
    ensures StopOf(BuildOrder(symbol, volume, side, price, stop)) == stop
  {
  }

  /**
   * Stops on the correct side: with a positive distance, a buy has its stop
   * loss below and its take profit above the entry, a sell the reverse.
   */
  predicate StopsStraddle(r: OrderRequest)
  {
    match r.side
    case Buy => r.sl < r.price < r.tp
    case Sell => r.tp < r.price < r.sl
  }

  lemma {:induction false} PositiveStopStraddles(symbol: string, volume: real, side: Side, price: real, stop: real)
    ensures StopsStraddle(BuildOrder(symbol, volume, side, price, stop)) <==> stop > 0.0
  {
  }

  /** A sell is the mirror image of a buy at the same price and distance. */
  lemma {:induction false} SellMirrorsBuy(symbol: string, volume: real, price: real, stop: real)
    ensures BuildOrder(symbol, volume, Sell, price, stop).sl == BuildOrder(symbol, volume, Buy, price, stop).tp
    ensures BuildOrder(symbol, volume, Sell, price, stop).tp == BuildOrder(symbol, volume, Buy, price, stop).sl
  {
  }

  /**
   * What `order_send` hands back: nothing at all, or a result carrying the
   * retcode, the order ticket and, when the result object has one, a profit.
   */
  datatype SendReply = NoReply | Reply(retcode: int, ticket: int, profit: Option<real>)

  predicate Accepted(reply: SendReply)
  {
    reply.Reply? && reply.retcode == TradeRetcodeDone
  }

  /** One row of the order log. */
  datatype OrderRow = OrderRow(
    ticket: int,
    orderNum: int,
    symbol: string,
    side: Side,
    volume: real,
    price: real,
    profit: real)

  /**
   * The profit logged for an accepted order. `strict` is the first script,
   * which reads the attribute directly and so needs it; the others default a
   * missing profit to zero.
   */
  function LoggedProfit(strict: bool, reply: SendReply): (p: real)
    requires Accepted(reply)
    requires strict ==> reply.profit.Some?
    ensures reply.profit.Some? ==> p == reply.profit.value
    ensures reply.profit.None? ==> p == 0.0
  {
    match reply.profit
    case Some(p) => p
    case None => 0.0
  }

  /** The profit attribute is present whenever the script reads it unguarded. */
  predicate ProfitReadable(strict: bool, reply: SendReply)
  {
    strict && Accepted(reply) ==> reply.profit.Some?
  }

  /**
   * The order log rows an attempt writes: one row when the broker accepted
   * the request, none when it returned nothing or another retcode.
   */
  function Logged(strict: bool, orderNum: int, req: OrderRequest, reply: SendReply): (rows: seq<OrderRow>)
    requires ProfitReadable(strict, reply)
    ensures |rows| == (if Accepted(reply) then 1 else 0)
    ensures forall row :: row in rows ==>
              row.ticket == reply.ticket && row.orderNum == orderNum && row.symbol == req.symbol
              && row.side == req.side && row.volume == req.volume && row.price == req.price
    ensures forall row :: row in rows ==> Accepted(reply) && row.profit == LoggedProfit(strict, reply)
  {
    if Accepted(reply)
    then [OrderRow(reply.ticket, orderNum, req.symbol, req.side, req.volume, req.price, LoggedProfit(strict, reply))]
    else []
  }
}
