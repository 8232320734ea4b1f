/** Which orders are accepted, and what they ask for. */
module OrderPlacing {
  import opened Outcomes
  import opened Money
  import opened PrintQuotes
  import opened OrderBook
  import K = KioskPricing

  predicate Printable(request: Request, user: nat) {
    request.owner == user && request.ready && request.selected.Some?
  }

  predicate AllPrintable(requests: seq<Request>, user: nat) {
    forall i :: 0 <= i < |requests| ==> Printable(requests[i], user)
  }

  /** The paper a request needs, counted from what was asked rather than from the lines made of it. */
  function SheetsAsked(requests: seq<Request>): nat {
    if requests == [] then 0
    else
      var last := requests[|requests| - 1];
      SheetsAsked(requests[..|requests| - 1])
      + (if last.selected.Some? then SheetsFor(last.options, last.selected.value) else 0)
  }

  lemma OneMoreLine(items: seq<Item>, request: Request, user: nat, prices: K.Prices)
    requires Printable(request, user)
    ensures var line := CheckedItem(request, user, prices);
            && line.Ok?
            && SheetsNeeded(items + [line.value])
               == SheetsNeeded(items) + SheetsFor(request.options, request.selected.value)
  {
    WorkIsWhatWasAsked(request.options, request.selected.value, prices);
    var line := CheckedItem(request, user, prices).value;
    assert (items + [line])[..|items|] == items;
  }

  lemma {:induction false} LinesAreMadeExactlyWhen(requests: seq<Request>, user: nat, prices: K.Prices)
    ensures CheckedItems(requests, user, prices).Ok? <==> AllPrintable(requests, user)
    ensures AllPrintable(requests, user) ==>
              var items := CheckedItems(requests, user, prices).value;
              |items| == |requests| && SheetsNeeded(items) == SheetsAsked(requests)
  {
    if requests != [] {
      var n, init := |requests| - 1, requests[..|requests| - 1];
      LinesAreMadeExactlyWhen(init, user, prices);
      assert AllPrintable(requests, user) <==> AllPrintable(init, user) && Printable(requests[n], user);
      if AllPrintable(requests, user) {
        OneMoreLine(CheckedItems(init, user, prices).value, requests[n], user, prices);
      }
    }
  }

  lemma PassesEveryCheck(book: Book, user: nat, shop: Shop, requests: seq<Request>, means: PaymentMethod,
                         now: int, stamp: int)
    ensures Place(book, user, shop, requests, means, now, stamp).Ok?
       <==> && shop.open && (means == Wallet ==> shop.takesWallet)
            && (shop.colour || !WantsColour(requests))
            && CheckedItems(requests, user, shop.prices).Ok?
            && var items := CheckedItems(requests, user, shop.prices).value;
               items != [] && SheetsNeeded(items) <= shop.sheetsLeft
  {
  }

  /** An order is accepted exactly when the shop is open, takes the means and offers the colour asked
      for, there is something to print, every document is the student's own and can be printed as
      asked, and the paper is there. */
  lemma AcceptedExactlyWhen(book: Book, user: nat, shop: Shop, requests: seq<Request>, means: PaymentMethod,
                            now: int, stamp: int)
    ensures Place(book, user, shop, requests, means, now, stamp).Ok?
       <==> && shop.open && (means == Wallet ==> shop.takesWallet)
            && (forall i :: 0 <= i < |requests| && requests[i].options.colour ==> shop.colour)
            && requests != [] && AllPrintable(requests, user) && SheetsAsked(requests) <= shop.sheetsLeft
  {
    PassesEveryCheck(book, user, shop, requests, means, now, stamp);
    LinesAreMadeExactlyWhen(requests, user, shop.prices);
    assert WantsColour(requests) <==> exists i :: 0 <= i < |requests| && requests[i].options.colour;
  }

  /** The line keeps the document and the settings as they were asked for, and costs what they cost. */
  predicate IsLineFor(item: Item, request: Request, prices: K.Prices) {
    && item.document == Some(request.document) && item.options == request.options
    && request.selected == Some(item.selected)
    && item.amount == AskedAmount(request.options, item.selected, prices)
  }

  lemma {:induction false} EachLineIsPriced(requests: seq<Request>, user: nat, prices: K.Prices)
    requires K.Sane(prices) && CheckedItems(requests, user, prices).Ok?
    ensures var items := CheckedItems(requests, user, prices).value;
            && |items| == |requests| && AllPrintable(requests, user)
            && forall i :: 0 <= i < |items| ==> IsLineFor(items[i], requests[i], prices) && items[i].amount >= 0
  {
    if requests != [] {
      var n := |requests| - 1;
      EachLineIsPriced(requests[..n], user, prices);
      WorkIsWhatWasAsked(requests[n].options, requests[n].selected.value, prices);
      SanePricesChargeNobodyLessThanNothing(requests[n].options, requests[n].selected.value, prices);
    }
  }

  /** What the student asked for, line by line, and what it adds up to. */
  predicate PricedExactly(order: Order, requests: seq<Request>, prices: K.Prices) {
    && |order.items| == |requests|
    && (forall i :: 0 <= i < |requests| ==> IsLineFor(order.items[i], requests[i], prices))
    && order.subtotal == SumPaise(Amounts(order.items)) >= 0
    && order.total == order.subtotal + order.fee
    && (if order.means == Wallet then order.fee == 0 else IsFee(order.fee, order.subtotal))
  }

  /** Nothing has happened to it yet, and it can be paid for twenty minutes. */
  predicate JustPlaced(order: Order, user: nat, kiosk: nat, means: PaymentMethod, now: int, stamp: int) {
    && order.user == user && order.kiosk == kiosk && order.means == means
    && order.state == AwaitingPayment && order.createdAt == stamp
    && order.expiresAt == Some(now + 1_200_000_000)
    && order.paidAt == None && order.reference == None && order.refundedAt == None
  }

  /** At any kiosk whose prices are sane, an accepted order asks for the sum of its lines, priced one
      by one, plus a fee of at most two rupees, and no fee at all from the wallet. */
  lemma PlacedOrdersArePricedExactly(book: Book, user: nat, shop: Shop, requests: seq<Request>, means: PaymentMethod,
                                     now: int, stamp: int)
    requires K.Sane(shop.prices)
    ensures var r := Place(book, user, shop, requests, means, now, stamp);
            r.Ok? ==>
              && r.value == book.(orders := r.value.orders)
              && |r.value.orders| == |book.orders| + 1 && r.value.orders[..|book.orders|] == book.orders
              && PricedExactly(r.value.orders[|book.orders|], requests, shop.prices)
              && JustPlaced(r.value.orders[|book.orders|], user, shop.kiosk, means, now, stamp)
  {
    LinesAreMadeExactlyWhen(requests, user, shop.prices);
    if AllPrintable(requests, user) && requests != [] {
      EachLineIsPriced(requests, user, shop.prices);
      var items := CheckedItems(requests, user, shop.prices).value;
      TotalsAreExact(Amounts(items), means == Wallet);
    }
  }
}
