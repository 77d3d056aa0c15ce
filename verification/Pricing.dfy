/** crates/application/src/pricing.rs: the server's price of a cart, from the live catalog or from
    the prices folded at a fixed coordinate. Amounts are cents and taken to be small enough for the
    source's 64-bit sums. */
module Pricing {
  import opened Wrappers

  type CartId = nat
  type RestaurantId = nat

  datatype Money = Money(cents: int, currency: string)

  // ---- the catalog ---------------------------------------------------------------------------

  datatype Choice = Choice(id: nat, name: string, price: Money)
  datatype ChoiceList = ChoiceList(id: nat, options: seq<Choice>)
  datatype Offer = Offer(id: nat, name: string, price: Money, listIds: seq<nat>)
  datatype Product = Product(id: nat, name: string, offers: seq<Offer>)
  datatype Catalog = Catalog(products: seq<Product>, lists: seq<ChoiceList>)

  /** `OfferView`, without the stock and availability that pricing never reads. */
  datatype View = View(productId: nat, productName: string, offerName: string, price: Money, lists: seq<ChoiceList>)

  type Port = map<RestaurantId, Catalog>

  function FindOffer(offers: seq<Offer>, id: nat): Option<Offer> {
    if offers == [] then None
    else if offers[0].id == id then Some(offers[0])
    else FindOffer(offers[1..], id)
  }

  function Linked(lists: seq<ChoiceList>, ids: seq<nat>): seq<ChoiceList> {
    if lists == [] then []
    else (if lists[0].id in ids then [lists[0]] else []) + Linked(lists[1..], ids)
  }

  /** `offer_view_from_tree`: the first product that has the offer, and the lists it links to in
      the tree's order. */
  function OfferView(products: seq<Product>, lists: seq<ChoiceList>, id: nat): Option<View> {
    if products == [] then None
    else
      match FindOffer(products[0].offers, id)
      case Some(offer) =>
        Some(View(products[0].id, products[0].name, offer.name, offer.price, Linked(lists, offer.listIds)))
      case None => OfferView(products[1..], lists, id)
  }

  function OfferById(port: Port, restaurant: RestaurantId, id: nat): Option<View> {
    if restaurant in port then OfferView(port[restaurant].products, port[restaurant].lists, id) else None
  }

  function FindChoice(options: seq<Choice>, id: nat): Option<Choice> {
    if options == [] then None
    else if options[0].id == id then Some(options[0])
    else FindChoice(options[1..], id)
  }

  /** The first list that has the option. */
  function FindInLists(lists: seq<ChoiceList>, id: nat): Option<(nat, Choice)> {
    if lists == [] then None
    else
      match FindChoice(lists[0].options, id)
      case Some(option) => Some((lists[0].id, option))
      case None => FindInLists(lists[1..], id)
  }

  // ---- the price of a line, whatever its source -----------------------------------------------

  datatype CartLine = CartLine(offerId: nat, quantity: int, optionIds: seq<nat>)

  datatype SelectedOption = SelectedOption(optionId: nat, listId: nat, name: string, price: Money)

  /** Everything a line's price is made of; None where some of it cannot be resolved. */
  datatype Quote = Quote(productId: nat, productName: string, offerName: string, unit: Money, options: seq<SelectedOption>)

  datatype Item = Item(
    offerId: nat, productId: nat, name: string, offerName: string, quantity: int, unitPrice: Money,
    selectedOptions: seq<SelectedOption>, lineTotal: Money)

  datatype Breakdown = Breakdown(
    articles: Money, delivery: Money, serviceFee: Money, total: Money, restaurantContribution: Money,
    restaurantPayout: Money, riderPayout: Money, captainNet: Money)

  datatype PricedCart = PricedCart(items: seq<Item>, total: Money, breakdown: Breakdown)

  datatype Rejection = PriceUnresolvable(cart: CartId, offerId: nat) | CartEmpty(cart: CartId)

  function Selected(lists: seq<ChoiceList>, ids: seq<nat>): Option<seq<SelectedOption>> {
    if ids == [] then Some([])
    else
      match (Selected(lists, ids[..|ids| - 1]), FindInLists(lists, ids[|ids| - 1]))
      case (Some(before), Some((listId, option))) =>
        Some(before + [SelectedOption(option.id, listId, option.name, option.price)])
      case _ => None
  }

  function LiveQuote(view: Option<View>, line: CartLine): Option<Quote> {
    match view
    case None => None
    case Some(v) =>
      match Selected(v.lists, line.optionIds)
      case None => None
      case Some(options) => Some(Quote(v.productId, v.productName, v.offerName, v.price, options))
  }

  /** The prices of one offer at the coordinate. */
  datatype Resolved = Resolved(unit: Money, options: map<nat, Money>)
  type AsOf = map<nat, Resolved>

  /** `price_of`: one price per requested option, in order, or none at all. */
  function PriceOf(asOf: AsOf, offerId: nat, ids: seq<nat>): Option<(Money, seq<Money>)> {
    if offerId !in asOf then None
    else
      match OptionPrices(asOf[offerId].options, ids)
      case None => None
      case Some(prices) => Some((asOf[offerId].unit, prices))
  }

  function OptionPrices(options: map<nat, Money>, ids: seq<nat>): (r: Option<seq<Money>>)
    ensures r.Some? ==> |r.value| == |ids|
  {
    if ids == [] then Some([])
    else
      match OptionPrices(options, ids[..|ids| - 1])
      case None => None
      case Some(before) => if ids[|ids| - 1] in options then Some(before + [options[ids[|ids| - 1]]]) else None
  }

  /** The names from the live view, the prices from the coordinate. */
  function SelectedAt(lists: seq<ChoiceList>, ids: seq<nat>, prices: seq<Money>): Option<seq<SelectedOption>>
    requires |ids| == |prices|
  {
    if ids == [] then Some([])
    else
      match (SelectedAt(lists, ids[..|ids| - 1], prices[..|ids| - 1]), FindInLists(lists, ids[|ids| - 1]))
      case (Some(before), Some((listId, option))) =>
        Some(before + [SelectedOption(ids[|ids| - 1], listId, option.name, prices[|ids| - 1])])
      case _ => None
  }

  function QuoteAt(view: Option<View>, asOf: AsOf, line: CartLine): Option<Quote> {
    match (view, PriceOf(asOf, line.offerId, line.optionIds))
    case (Some(v), Some((unit, prices))) =>
      (match SelectedAt(v.lists, line.optionIds, prices)
       case None => None
       case Some(options) => Some(Quote(v.productId, v.productName, v.offerName, unit, options)))
    case _ => None
  }

  // ---- the price of a cart ---------------------------------------------------------------------

  predicate AllIn(options: seq<SelectedOption>, currency: string) {
    forall i :: 0 <= i < |options| ==> options[i].price.currency == currency
  }

  /** Resolved, and all of it in the cart's currency. */
  predicate Good(quote: Option<Quote>, currency: string) {
    quote.Some? && quote.value.unit.currency == currency && AllIn(quote.value.options, currency)
  }

  function OptionCents(options: seq<SelectedOption>): int {
    if options == [] then 0
    else OptionCents(options[..|options| - 1]) + options[|options| - 1].price.cents
  }

  function LineCents(quote: Quote, quantity: int): int {
    (quote.unit.cents + OptionCents(quote.options)) * quantity
  }

  function PricedLine(line: CartLine, quote: Quote): Item {
    Item(line.offerId, quote.productId, quote.productName, quote.offerName, line.quantity, quote.unit,
         quote.options, Money(LineCents(quote, line.quantity), quote.unit.currency))
  }

  /** The first line's currency is the cart's. */
  function CurrencyOf(quotes: seq<Option<Quote>>): string {
    if quotes != [] && quotes[0].Some? then quotes[0].value.unit.currency else ""
  }

  function Items(cart: CartId, lines: seq<CartLine>, quotes: seq<Option<Quote>>): Result<seq<Item>, Rejection>
    requires |lines| == |quotes|
  {
    if lines == [] then Ok([])
    else
      var n := |lines| - 1;
      match Items(cart, lines[..n], quotes[..n])
      case Err(e) => Err(e)
      case Ok(items) =>
        if Good(quotes[n], CurrencyOf(quotes)) then Ok(items + [PricedLine(lines[n], quotes[n].value)])
        else Err(PriceUnresolvable(cart, lines[n].offerId))
  }

  function SumLines(items: seq<Item>): int {
    if items == [] then 0 else SumLines(items[..|items| - 1]) + items[|items| - 1].lineTotal.cents
  }

  function Degenerate(total: Money): Breakdown {
    var zero := Money(0, total.currency);
    Breakdown(total, zero, zero, total, zero, total, zero, zero)
  }

  function Priced(cart: CartId, lines: seq<CartLine>, quotes: seq<Option<Quote>>): Result<PricedCart, Rejection>
    requires |lines| == |quotes|
  {
    match Items(cart, lines, quotes)
    case Err(e) => Err(e)
    case Ok(items) =>
      if lines == [] then Err(CartEmpty(cart))
      else
        var total := Money(SumLines(items), CurrencyOf(quotes));
        Ok(PricedCart(items, total, Degenerate(total)))
  }

  function LiveQuotes(port: Port, restaurant: RestaurantId, lines: seq<CartLine>): (quotes: seq<Option<Quote>>)
    ensures |quotes| == |lines|
  {
    seq(|lines|, i requires 0 <= i < |lines| => LiveQuote(OfferById(port, restaurant, lines[i].offerId), lines[i]))
  }

  function QuotesAt(port: Port, asOf: AsOf, restaurant: RestaurantId, lines: seq<CartLine>): (quotes: seq<Option<Quote>>)
    ensures |quotes| == |lines|
  {
    seq(|lines|, i requires 0 <= i < |lines| => QuoteAt(OfferById(port, restaurant, lines[i].offerId), asOf, lines[i]))
  }

  /** The inner loop of `price_cart`: the options of one line, priced from their live lists. */
  method SelectOptions(lists: seq<ChoiceList>, ids: seq<nat>, currency: string) returns (options: Option<seq<SelectedOption>>, cents: int)
    ensures options.Some? <==> Selected(lists, ids).Some? && AllIn(Selected(lists, ids).value, currency)
    ensures options.Some? ==> options == Selected(lists, ids) && cents == OptionCents(options.value)
  {
    var chosen := [];
    cents := 0;
    for i := 0 to |ids|
      invariant Selected(lists, ids[..i]) == Some(chosen) && |chosen| == i && AllIn(chosen, currency) && cents == OptionCents(chosen)
    {
      assert ids[..i + 1][..i] == ids[..i];
      var found := FindInLists(lists, ids[i]);
      if found.None? {
        SelectedFails(lists, ids, i + 1, currency);
        return None, cents;
      }
      var (listId, option) := found.value;
      var next := SelectedOption(option.id, listId, option.name, option.price);
      if option.price.currency != currency {
        assert Selected(lists, ids[..i + 1]) == Some(chosen + [next]) && (chosen + [next])[i] == next;
        SelectedFails(lists, ids, i + 1, currency);
        return None, cents;
      }
      assert (chosen + [next])[..|chosen + [next]| - 1] == chosen;
      cents := cents + option.price.cents;
      chosen := chosen + [next];
    }
    assert ids[..|ids|] == ids;
    options := Some(chosen);
  }

  /** A prefix that cannot be priced spoils the whole selection. */
  lemma {:induction false} SelectedFails(lists: seq<ChoiceList>, ids: seq<nat>, n: nat, currency: string)
    requires n <= |ids|
    requires Selected(lists, ids[..n]).None? || !AllIn(Selected(lists, ids[..n]).value, currency)
    ensures Selected(lists, ids).None? || !AllIn(Selected(lists, ids).value, currency)
    decreases |ids| - n
  {
    if n == |ids| {
      assert ids[..n] == ids;
    } else {
      assert ids[..n + 1][..n] == ids[..n];
      if Selected(lists, ids[..n]).Some? && Selected(lists, ids[..n + 1]).Some? {
        var before, after := Selected(lists, ids[..n]).value, Selected(lists, ids[..n + 1]).value;
        var i :| 0 <= i < |before| && before[i].price.currency != currency;
        assert after[i] == before[i];
      }
      SelectedFails(lists, ids, n + 1, currency);
    }
  }

  /** A prefix that is rejected rejects the cart. */
  lemma {:induction false} ItemsFail(cart: CartId, lines: seq<CartLine>, quotes: seq<Option<Quote>>, n: nat)
    requires |lines| == |quotes| && n <= |lines| && Items(cart, lines[..n], quotes[..n]).Err?
    ensures Items(cart, lines, quotes) == Items(cart, lines[..n], quotes[..n])
  {
    if n == |lines| {
      assert lines[..n] == lines && quotes[..n] == quotes;
    } else {
      var m := |lines| - 1;
      assert lines[..m][..n] == lines[..n] && quotes[..m][..n] == quotes[..n];
      ItemsFail(cart, lines[..m], quotes[..m], n);
    }
  }

  /** One line of the live pricer; the first line sets the currency. */
  method PriceLine(view: Option<View>, line: CartLine, currency: Option<string>) returns (item: Option<Item>)
    ensures
      var quote := LiveQuote(view, line);
      && (item.Some? <==> GoodNow(quote, currency))
      && (item.Some? ==> item == Some(PricedLine(line, quote.value)))
  {
    if view.None? { return None; }
    var offer := view.value;
    var cur := if currency.Some? then currency.value else offer.price.currency;
    if offer.price.currency != cur { return None; }
    var options, cents := SelectOptions(offer.lists, line.optionIds, cur);
    if options.None? { return None; }
    return Some(Item(line.offerId, offer.productId, offer.productName, offer.offerName, line.quantity, offer.price,
                     options.value, Money((offer.price.cents + cents) * line.quantity, cur)));
  }

  lemma ItemsNext(cart: CartId, lines: seq<CartLine>, quotes: seq<Option<Quote>>, n: nat)
    requires |lines| == |quotes| && n < |lines|
    ensures Items(cart, lines[..n + 1], quotes[..n + 1])
      == match Items(cart, lines[..n], quotes[..n])
         case Err(e) => Err(e)
         case Ok(items) =>
           if Good(quotes[n], CurrencyOf(quotes)) then Ok(items + [PricedLine(lines[n], quotes[n].value)])
           else Err(PriceUnresolvable(cart, lines[n].offerId))
  {
    assert lines[..n + 1][..n] == lines[..n] && quotes[..n + 1][..n] == quotes[..n];
    assert CurrencyOf(quotes[..n + 1]) == CurrencyOf(quotes);
  }

  /** Where a pricing loop stands before line `i`. */
  ghost predicate SoFar(cart: CartId, lines: seq<CartLine>, quotes: seq<Option<Quote>>, i: nat, items: seq<Item>, total: int, currency: Option<string>) {
    && |lines| == |quotes| && i <= |lines|
    && Items(cart, lines[..i], quotes[..i]) == Ok(items) && total == SumLines(items)
    && currency == if i == 0 then None else Some(CurrencyOf(quotes))
  }

  predicate GoodNow(quote: Option<Quote>, currency: Option<string>) {
    Good(quote, if currency.Some? then currency.value else CurrencyOf([quote]))
  }

  lemma Advance(cart: CartId, lines: seq<CartLine>, quotes: seq<Option<Quote>>, i: nat, items: seq<Item>, total: int, currency: Option<string>)
    requires SoFar(cart, lines, quotes, i, items, total, currency) && i < |lines| && GoodNow(quotes[i], currency)
    ensures
      var item := PricedLine(lines[i], quotes[i].value);
      SoFar(cart, lines, quotes, i + 1, items + [item], total + item.lineTotal.cents, Some(item.unitPrice.currency))
  {
    var item := PricedLine(lines[i], quotes[i].value);
    ItemsNext(cart, lines, quotes, i);
    assert (items + [item])[..|items + [item]| - 1] == items;
  }

  lemma Reject(cart: CartId, lines: seq<CartLine>, quotes: seq<Option<Quote>>, i: nat, items: seq<Item>, total: int, currency: Option<string>)
    requires SoFar(cart, lines, quotes, i, items, total, currency) && i < |lines| && !GoodNow(quotes[i], currency)
    ensures Items(cart, lines, quotes) == Err(PriceUnresolvable(cart, lines[i].offerId))
  {
    ItemsNext(cart, lines, quotes, i);
    ItemsFail(cart, lines, quotes, i + 1);
  }

  /** The loop of `price_cart`: the first line that cannot be priced rejects the cart by its own
      name. */
  method PriceLines(port: Port, cart: CartId, restaurant: RestaurantId, lines: seq<CartLine>)
    returns (r: Result<seq<Item>, Rejection>, total: int, currency: Option<string>)
    ensures r == Items(cart, lines, LiveQuotes(port, restaurant, lines))
    ensures r.Ok? ==> total == SumLines(r.value)
    ensures r.Ok? ==> currency == if lines == [] then None else Some(CurrencyOf(LiveQuotes(port, restaurant, lines)))
  {
    ghost var quotes := LiveQuotes(port, restaurant, lines);
    var items := [];
    total, currency := 0, None;
    for i := 0 to |lines|
      invariant SoFar(cart, lines, quotes, i, items, total, currency)
    {
      var item := PriceLine(OfferById(port, restaurant, lines[i].offerId), lines[i], currency);
      if item.None? {
        Reject(cart, lines, quotes, i, items, total, currency);
        return Err(PriceUnresolvable(cart, lines[i].offerId)), total, currency;
      }
      Advance(cart, lines, quotes, i, items, total, currency);
      items, total := items + [item.value], total + item.value.lineTotal.cents;
      currency := Some(item.value.unitPrice.currency);
    }
    assert lines[..|lines|] == lines && quotes[..|lines|] == quotes;
    r := Ok(items);
  }

  /** `price_cart`. */
  method PriceCart(port: Port, cart: CartId, restaurant: RestaurantId, lines: seq<CartLine>) returns (r: Result<PricedCart, Rejection>)
    ensures r == Priced(cart, lines, LiveQuotes(port, restaurant, lines))
  {
    var items, total, currency := PriceLines(port, cart, restaurant, lines);
    if items.Err? { return Err(items.error); }
    if currency.None? { return Err(CartEmpty(cart)); }
    var amount := Money(total, currency.value);
    r := Ok(PricedCart(items.value, amount, Degenerate(amount)));
  }

  // ---- the pricer at a coordinate --------------------------------------------------------------

  lemma {:induction false} SelectedAtFails(lists: seq<ChoiceList>, ids: seq<nat>, prices: seq<Money>, n: nat, currency: string)
    requires |ids| == |prices| && n <= |ids|
    requires SelectedAt(lists, ids[..n], prices[..n]).None? || !AllIn(SelectedAt(lists, ids[..n], prices[..n]).value, currency)
    ensures SelectedAt(lists, ids, prices).None? || !AllIn(SelectedAt(lists, ids, prices).value, currency)
    decreases |ids| - n
  {
    if n == |ids| {
      assert ids[..n] == ids && prices[..n] == prices;
    } else {
      assert ids[..n + 1][..n] == ids[..n] && prices[..n + 1][..n] == prices[..n];
      var before, after := SelectedAt(lists, ids[..n], prices[..n]), SelectedAt(lists, ids[..n + 1], prices[..n + 1]);
      if before.Some? && after.Some? {
        var i :| 0 <= i < |before.value| && before.value[i].price.currency != currency;
        assert after.value[i] == before.value[i];
      }
      SelectedAtFails(lists, ids, prices, n + 1, currency);
    }
  }

  /** The zip of `price_cart_at`: labels from the live lists, prices from the coordinate. */
  method SelectOptionsAt(lists: seq<ChoiceList>, ids: seq<nat>, prices: seq<Money>, currency: string)
    returns (options: Option<seq<SelectedOption>>, cents: int)
    requires |ids| == |prices|
    ensures options.Some? <==> SelectedAt(lists, ids, prices).Some? && AllIn(SelectedAt(lists, ids, prices).value, currency)
    ensures options.Some? ==> options == SelectedAt(lists, ids, prices) && cents == OptionCents(options.value)
  {
    var chosen := [];
    cents := 0;
    for i := 0 to |ids|
      invariant SelectedAt(lists, ids[..i], prices[..i]) == Some(chosen)
      invariant |chosen| == i && AllIn(chosen, currency) && cents == OptionCents(chosen)
    {
      assert ids[..i + 1][..i] == ids[..i] && prices[..i + 1][..i] == prices[..i];
      var found := FindInLists(lists, ids[i]);
      if found.None? {
        SelectedAtFails(lists, ids, prices, i + 1, currency);
        return None, cents;
      }
      var next := SelectedOption(ids[i], found.value.0, found.value.1.name, prices[i]);
      if prices[i].currency != currency {
        assert SelectedAt(lists, ids[..i + 1], prices[..i + 1]) == Some(chosen + [next]) && (chosen + [next])[i] == next;
        SelectedAtFails(lists, ids, prices, i + 1, currency);
        return None, cents;
      }
      assert (chosen + [next])[..|chosen + [next]| - 1] == chosen;
      cents := cents + prices[i].cents;
      chosen := chosen + [next];
    }
    assert ids[..|ids|] == ids && prices[..|ids|] == prices;
    options := Some(chosen);
  }

  method PriceLineAt(view: Option<View>, asOf: AsOf, line: CartLine, currency: Option<string>) returns (item: Option<Item>)
    ensures
      var quote := QuoteAt(view, asOf, line);
      && (item.Some? <==> GoodNow(quote, currency))
      && (item.Some? ==> item == Some(PricedLine(line, quote.value)))
  {
    if view.None? { return None; }
    var offer, price := view.value, PriceOf(asOf, line.offerId, line.optionIds);
    if price.None? { return None; }
    var (unit, prices) := price.value;
    var cur := if currency.Some? then currency.value else unit.currency;
    if unit.currency != cur { return None; }
    var options, cents := SelectOptionsAt(offer.lists, line.optionIds, prices, cur);
    if options.None? { return None; }
    return Some(Item(line.offerId, offer.productId, offer.productName, offer.offerName, line.quantity, unit,
                     options.value, Money((unit.cents + cents) * line.quantity, cur)));
  }

  method PriceLinesAt(port: Port, asOf: AsOf, cart: CartId, restaurant: RestaurantId, lines: seq<CartLine>)
    returns (r: Result<seq<Item>, Rejection>, total: int, currency: Option<string>)
    ensures r == Items(cart, lines, QuotesAt(port, asOf, restaurant, lines))
    ensures r.Ok? ==> total == SumLines(r.value)
    ensures r.Ok? ==> currency == if lines == [] then None else Some(CurrencyOf(QuotesAt(port, asOf, restaurant, lines)))
  {
    ghost var quotes := QuotesAt(port, asOf, restaurant, lines);
    var items := [];
    total, currency := 0, None;
    for i := 0 to |lines|
      invariant SoFar(cart, lines, quotes, i, items, total, currency)
    {
      var item := PriceLineAt(OfferById(port, restaurant, lines[i].offerId), asOf, lines[i], currency);
      if item.None? {
        Reject(cart, lines, quotes, i, items, total, currency);
        return Err(PriceUnresolvable(cart, lines[i].offerId)), total, currency;
      }
      Advance(cart, lines, quotes, i, items, total, currency);
      items, total := items + [item.value], total + item.value.lineTotal.cents;
      currency := Some(item.value.unitPrice.currency);
    }
    assert lines[..|lines|] == lines && quotes[..|lines|] == quotes;
    r := Ok(items);
  }

  /** `price_cart_at`. */
  method PriceCartAt(port: Port, asOf: AsOf, cart: CartId, restaurant: RestaurantId, lines: seq<CartLine>)
    returns (r: Result<PricedCart, Rejection>)
    ensures r == Priced(cart, lines, QuotesAt(port, asOf, restaurant, lines))
  {
    var items, total, currency := PriceLinesAt(port, asOf, cart, restaurant, lines);
    if items.Err? { return Err(items.error); }
    if currency.None? { return Err(CartEmpty(cart)); }
    var amount := Money(total, currency.value);
    r := Ok(PricedCart(items.value, amount, Degenerate(amount)));
  }
}
