/** crates/domain/src/catalog_as_of.rs, the narrowing of a catalog to its prices, against the walk of
    the same catalog that the live pricer does (crates/application/src/queries.rs): one overwrites
    as it goes and keeps the last, the other stops at the first. */
module CatalogAsOf {
  import opened Wrappers
  import opened Pricing
  import opened PricingLaws

  function FindList(lists: seq<ChoiceList>, id: nat): Option<ChoiceList> {
    if lists == [] then None
    else if lists[0].id == id then Some(lists[0])
    else FindList(lists[1..], id)
  }

  /** `option_prices.insert(..)` over the options of one list. */
  function Inserted(options: seq<Choice>): map<nat, Money> {
    if options == [] then map[]
    else Inserted(options[..|options| - 1])[options[|options| - 1].id := options[|options| - 1].price]
  }

  /** The prices reachable from an offer, list by linked list. */
  function Reachable(lists: seq<ChoiceList>, ids: seq<nat>): map<nat, Money> {
    if ids == [] then map[]
    else
      var list := FindList(lists, ids[|ids| - 1]);
      Reachable(lists, ids[..|ids| - 1]) + (if list.Some? then Inserted(list.value.options) else map[])
  }

  function NarrowOffers(offers: seq<Offer>, lists: seq<ChoiceList>): AsOf {
    if offers == [] then map[]
    else
      var last := offers[|offers| - 1];
      NarrowOffers(offers[..|offers| - 1], lists)[last.id := Resolved(last.price, Reachable(lists, last.listIds))]
  }

  /** `AsOfCatalog::narrow`. */
  function Narrow(products: seq<Product>, lists: seq<ChoiceList>): AsOf {
    if products == [] then map[]
    else Narrow(products[..|products| - 1], lists) + NarrowOffers(products[|products| - 1].offers, lists)
  }

  // ---- membership --------------------------------------------------------------------------------

  ghost predicate Offered(products: seq<Product>, offer: Offer) {
    exists p :: 0 <= p < |products| && offer in products[p].offers
  }

  /** An option the offer reaches through a list it links to. */
  ghost predicate Reaches(lists: seq<ChoiceList>, ids: seq<nat>, option: Choice) {
    exists l :: 0 <= l < |lists| && lists[l].id in ids && option in lists[l].options
  }

  /** No identity means two things: offers of one id have one price and the same lists, lists of one
      id are one list, options of one id reached from one offer have one price. */
  ghost predicate Unambiguous(c: Catalog) {
    && (forall a, b :: Offered(c.products, a) && Offered(c.products, b) && a.id == b.id ==> a.price == b.price && a.listIds == b.listIds)
    && (forall i, j :: 0 <= i < |c.lists| && 0 <= j < |c.lists| && c.lists[i].id == c.lists[j].id ==> c.lists[i] == c.lists[j])
    && (forall offer :: Offered(c.products, offer) ==> OnePrice(c.lists, offer.listIds))
  }

  ghost predicate OnePrice(lists: seq<ChoiceList>, ids: seq<nat>) {
    forall a, b :: Reaches(lists, ids, a) && Reaches(lists, ids, b) && a.id == b.id ==> a.price == b.price
  }

  lemma {:induction false} InsertedIs(options: seq<Choice>, id: nat)
    ensures id in Inserted(options) <==> exists o :: o in options && o.id == id
    ensures id in Inserted(options) ==> exists o :: o in options && o.id == id && o.price == Inserted(options)[id]
  {
    if options != [] {
      var but, last := options[..|options| - 1], options[|options| - 1];
      InsertedIs(but, id);
      assert options == but + [last];
      assert last in options;
      if last.id != id && id in Inserted(but) {
        var o :| o in but && o.id == id && o.price == Inserted(but)[id];
        assert o in options;
      }
    }
  }

  lemma {:induction false} FindListIs(lists: seq<ChoiceList>, id: nat)
    ensures FindList(lists, id).Some? ==> FindList(lists, id).value in lists && FindList(lists, id).value.id == id
    ensures FindList(lists, id).None? ==> forall list :: list in lists ==> list.id != id
  {
    if lists != [] { FindListIs(lists[1..], id); }
  }

  lemma {:induction false} ReachableIs(lists: seq<ChoiceList>, ids: seq<nat>, id: nat)
    ensures id in Reachable(lists, ids) ==> exists o :: Reaches(lists, ids, o) && o.id == id && o.price == Reachable(lists, ids)[id]
  {
    if ids != [] && id in Reachable(lists, ids) {
      var but, list := ids[..|ids| - 1], FindList(lists, ids[|ids| - 1]);
      FindListIs(lists, ids[|ids| - 1]);
      if list.Some? && id in Inserted(list.value.options) {
        InsertedIs(list.value.options, id);
        var o :| o in list.value.options && o.id == id && o.price == Inserted(list.value.options)[id];
        assert Reaches(lists, ids, o);
      } else {
        ReachableIs(lists, but, id);
        var o :| Reaches(lists, but, o) && o.id == id && o.price == Reachable(lists, but)[id];
        var l :| 0 <= l < |lists| && lists[l].id in but && o in lists[l].options;
        assert lists[l].id in ids;
        assert Reaches(lists, ids, o);
      }
    }
  }

  lemma {:induction false} ReachedIsReachable(lists: seq<ChoiceList>, ids: seq<nat>, option: Choice)
    requires forall i, j :: 0 <= i < |lists| && 0 <= j < |lists| && lists[i].id == lists[j].id ==> lists[i] == lists[j]
    requires Reaches(lists, ids, option)
    ensures option.id in Reachable(lists, ids)
  {
    var l :| 0 <= l < |lists| && lists[l].id in ids && option in lists[l].options;
    var last := ids[|ids| - 1];
    FindListIs(lists, last);
    if lists[l].id == last {
      assert FindList(lists, last) == Some(lists[l]);
      InsertedIs(lists[l].options, option.id);
    } else {
      assert Reaches(lists, ids[..|ids| - 1], option);
      ReachedIsReachable(lists, ids[..|ids| - 1], option);
    }
  }

  lemma {:induction false} FindChoiceIs(options: seq<Choice>, id: nat)
    ensures FindChoice(options, id).Some? ==> FindChoice(options, id).value in options && FindChoice(options, id).value.id == id
    ensures FindChoice(options, id).None? ==> forall o :: o in options ==> o.id != id
  {
    if options != [] { FindChoiceIs(options[1..], id); }
  }

  lemma ReachesFirst(lists: seq<ChoiceList>, ids: seq<nat>, option: Choice)
    requires lists != []
    ensures Reaches(lists, ids, option) <==> (lists[0].id in ids && option in lists[0].options) || Reaches(lists[1..], ids, option)
  {
    var rest := lists[1..];
    if l :| 0 <= l < |rest| && rest[l].id in ids && option in rest[l].options {
      assert lists[l + 1].id in ids && option in lists[l + 1].options;
    }
    if l :| 0 < l < |lists| && lists[l].id in ids && option in lists[l].options {
      assert rest[l - 1].id in ids && option in rest[l - 1].options;
    }
  }

  lemma {:induction false} FindInListsIs(lists: seq<ChoiceList>, ids: seq<nat>, id: nat)
    ensures
      match FindInLists(Linked(lists, ids), id)
      case Some((_, option)) => Reaches(lists, ids, option) && option.id == id
      case None => forall o :: Reaches(lists, ids, o) ==> o.id != id
  {
    if lists != [] {
      var rest := lists[1..];
      FindInListsIs(rest, ids, id);
      FindChoiceIs(lists[0].options, id);
      var tail := Linked(rest, ids);
      assert lists[0].id in ids ==> ([lists[0]] + tail)[1..] == tail;
      assert lists[0].id !in ids ==> [] + tail == tail;
      forall o ensures Reaches(lists, ids, o) <==> (lists[0].id in ids && o in lists[0].options) || Reaches(rest, ids, o) {
        ReachesFirst(lists, ids, o);
      }
    }
  }

  lemma {:induction false} FindOfferIs(offers: seq<Offer>, id: nat)
    ensures FindOffer(offers, id).Some? ==> FindOffer(offers, id).value in offers && FindOffer(offers, id).value.id == id
    ensures FindOffer(offers, id).None? ==> forall o :: o in offers ==> o.id != id
  {
    if offers != [] { FindOfferIs(offers[1..], id); }
  }

  lemma {:induction false} ViewIs(products: seq<Product>, lists: seq<ChoiceList>, id: nat)
    ensures
      match OfferView(products, lists, id)
      case Some(v) => exists o :: Offered(products, o) && o.id == id && v.price == o.price && v.lists == Linked(lists, o.listIds)
      case None => forall o :: Offered(products, o) ==> o.id != id
  {
    if products != [] {
      var rest := products[1..];
      ViewIs(rest, lists, id);
      FindOfferIs(products[0].offers, id);
      assert forall p :: 0 <= p < |rest| ==> rest[p] == products[p + 1];
      assert forall o :: Offered(rest, o) ==> Offered(products, o);
      assert forall o :: Offered(products, o) ==> Offered(rest, o) || o in products[0].offers;
    }
  }

  lemma {:induction false} NarrowOffersIs(offers: seq<Offer>, lists: seq<ChoiceList>, id: nat)
    ensures id in NarrowOffers(offers, lists) <==> exists o :: o in offers && o.id == id
    ensures id in NarrowOffers(offers, lists) ==>
              exists o :: o in offers && o.id == id && NarrowOffers(offers, lists)[id] == Resolved(o.price, Reachable(lists, o.listIds))
  {
    if offers != [] {
      var but, last := offers[..|offers| - 1], offers[|offers| - 1];
      NarrowOffersIs(but, lists, id);
      assert offers == but + [last];
      assert last in offers;
      if last.id != id && id in NarrowOffers(but, lists) {
        var o :| o in but && o.id == id && NarrowOffers(but, lists)[id] == Resolved(o.price, Reachable(lists, o.listIds));
        assert o in offers;
      }
    }
  }

  lemma {:induction false} NarrowIs(products: seq<Product>, lists: seq<ChoiceList>, id: nat)
    ensures id in Narrow(products, lists) <==> exists o :: Offered(products, o) && o.id == id
    ensures id in Narrow(products, lists) ==>
              exists o :: Offered(products, o) && o.id == id && Narrow(products, lists)[id] == Resolved(o.price, Reachable(lists, o.listIds))
  {
    if products != [] {
      var but, last := products[..|products| - 1], products[|products| - 1];
      NarrowIs(but, lists, id);
      NarrowOffersIs(last.offers, lists, id);
      assert forall o :: Offered(but, o) ==> Offered(products, o);
      assert forall o :: o in last.offers ==> Offered(products, o);
      assert forall o :: Offered(products, o) ==> Offered(but, o) || o in last.offers;
    }
  }

  // ---- the first and the last of an identity --------------------------------------------------------

  /** The offer the walk stops at. */
  function FirstOffer(products: seq<Product>, id: nat): Option<Offer> {
    if products == [] then None
    else if FindOffer(products[0].offers, id).Some? then FindOffer(products[0].offers, id)
    else FirstOffer(products[1..], id)
  }

  function LastIn(offers: seq<Offer>, id: nat): Option<Offer> {
    if offers == [] then None
    else if offers[|offers| - 1].id == id then Some(offers[|offers| - 1])
    else LastIn(offers[..|offers| - 1], id)
  }

  /** The offer inserted last. */
  function LastOffer(products: seq<Product>, id: nat): Option<Offer> {
    if products == [] then None
    else if LastIn(products[|products| - 1].offers, id).Some? then LastIn(products[|products| - 1].offers, id)
    else LastOffer(products[..|products| - 1], id)
  }

  lemma {:induction false} ViewIsFirst(products: seq<Product>, lists: seq<ChoiceList>, id: nat)
    ensures
      match FirstOffer(products, id)
      case None => OfferView(products, lists, id) == None
      case Some(o) =>
        && OfferView(products, lists, id).Some?
        && OfferView(products, lists, id).value.price == o.price
        && OfferView(products, lists, id).value.lists == Linked(lists, o.listIds)
  {
    if products != [] { ViewIsFirst(products[1..], lists, id); }
  }

  lemma {:induction false} NarrowOffersIsLast(offers: seq<Offer>, lists: seq<ChoiceList>, id: nat)
    ensures
      match LastIn(offers, id)
      case None => id !in NarrowOffers(offers, lists)
      case Some(o) => id in NarrowOffers(offers, lists) && NarrowOffers(offers, lists)[id] == Resolved(o.price, Reachable(lists, o.listIds))
  {
    if offers != [] { NarrowOffersIsLast(offers[..|offers| - 1], lists, id); }
  }

  lemma {:induction false} NarrowIsLast(products: seq<Product>, lists: seq<ChoiceList>, id: nat)
    ensures
      match LastOffer(products, id)
      case None => id !in Narrow(products, lists)
      case Some(o) => id in Narrow(products, lists) && Narrow(products, lists)[id] == Resolved(o.price, Reachable(lists, o.listIds))
  {
    if products != [] {
      NarrowIsLast(products[..|products| - 1], lists, id);
      NarrowOffersIsLast(products[|products| - 1].offers, lists, id);
    }
  }

  lemma FirstIffLast(c: Catalog, id: nat)
    ensures FirstOffer(c.products, id).Some? <==> LastOffer(c.products, id).Some?
  {
    ViewIs(c.products, c.lists, id);
    ViewIsFirst(c.products, c.lists, id);
    NarrowIs(c.products, c.lists, id);
    NarrowIsLast(c.products, c.lists, id);
  }

  // ---- one offer, every line of it -----------------------------------------------------------------

  /** First and last offer of the identity have one price, and every option the first one lists has
      its first-listed price among the last-inserted prices the last one reaches. */
  ghost predicate SameOffer(c: Catalog, id: nat) {
    FirstOffer(c.products, id).Some? && LastOffer(c.products, id).Some? ==>
      var first, last := FirstOffer(c.products, id).value, LastOffer(c.products, id).value;
      && first.price == last.price
      && forall option :: FindInLists(Linked(c.lists, first.listIds), option).Some? ==>
           SamePrice(Linked(c.lists, first.listIds), Reachable(c.lists, last.listIds), option)
  }

  ghost predicate LinesAgree(c: Catalog, id: nat) {
    forall line: CartLine :: line.offerId == id ==> Agree(OfferView(c.products, c.lists, id), Narrow(c.products, c.lists), line)
  }

  /** Folding to prices and walking the tree price every line of an offer alike, exactly when the
      catalog's first and last word on it are the same. */
  lemma LinesAgreeIff(c: Catalog, id: nat)
    ensures LinesAgree(c, id) <==> SameOffer(c, id)
  {
    var view, asOf := OfferView(c.products, c.lists, id), Narrow(c.products, c.lists);
    FirstIffLast(c, id);
    ViewIsFirst(c.products, c.lists, id);
    NarrowIsLast(c.products, c.lists, id);
    if view.Some? && LinesAgree(c, id) {
      assert Agree(view, asOf, CartLine(id, 1, []));
      forall option | FindInLists(view.value.lists, option).Some? ensures SamePrice(view.value.lists, asOf[id].options, option) {
        var line := CartLine(id, 1, [option]);
        assert Agree(view, asOf, line) && line.optionIds[0] == option;
      }
    }
  }

  // ---- the whole catalog, every cart ----------------------------------------------------------------

  function PriceIn(options: map<nat, Money>, id: nat): Option<Money> {
    if id in options then Some(options[id]) else None
  }

  /** An option in the offer's currency must have its price at the coordinate; one that is not could
      never be sold with the offer, and must stay that way. */
  ghost predicate ChargedOption(listed: Money, narrowed: Option<Money>, currency: string) {
    if listed.currency == currency then narrowed == Some(listed)
    else narrowed.None? || narrowed.value.currency != currency
  }

  ghost predicate ChargedAlike(c: Catalog, id: nat) {
    FirstOffer(c.products, id).Some? && LastOffer(c.products, id).Some? ==>
      var first, last := FirstOffer(c.products, id).value, LastOffer(c.products, id).value;
      && first.price == last.price
      && forall option :: FindInLists(Linked(c.lists, first.listIds), option).Some? ==> OptionAlike(c, first, last, option)
  }

  ghost predicate OptionAlike(c: Catalog, first: Offer, last: Offer, option: nat)
    requires FindInLists(Linked(c.lists, first.listIds), option).Some?
  {
    ChargedOption(FindInLists(Linked(c.lists, first.listIds), option).value.1.price,
                  PriceIn(Reachable(c.lists, last.listIds), option), first.price.currency)
  }

  lemma {:induction false} SelectedPrices(lists: seq<ChoiceList>, ids: seq<nat>)
    requires Selected(lists, ids).Some?
    ensures Listed(lists, ids) && |Selected(lists, ids).value| == |ids|
    ensures forall i :: 0 <= i < |ids| ==> Selected(lists, ids).value[i].price == FindInLists(lists, ids[i]).value.1.price
  {
    SelectedIff(lists, ids);
    if ids != [] {
      var but := ids[..|ids| - 1];
      SelectedPrices(lists, but);
      assert forall i :: 0 <= i < |but| ==> ids[i] == but[i];
    }
  }

  lemma {:induction false} PricesAt(lists: seq<ChoiceList>, options: map<nat, Money>, ids: seq<nat>)
    requires OptionPrices(options, ids).Some? && SelectedAt(lists, ids, OptionPrices(options, ids).value).Some?
    ensures
      var selected := SelectedAt(lists, ids, OptionPrices(options, ids).value).value;
      && Listed(lists, ids) && |selected| == |ids|
      && forall i :: 0 <= i < |ids| ==> PriceIn(options, ids[i]) == Some(selected[i].price)
  {
    var prices := OptionPrices(options, ids).value;
    SelectedAtNeedsLists(lists, ids, prices);
    if ids != [] {
      var but := ids[..|ids| - 1];
      assert prices[..|but|] == OptionPrices(options, but).value;
      PricesAt(lists, options, but);
      assert forall i :: 0 <= i < |but| ==> ids[i] == but[i];
    }
  }

  /** A line of such an offer is good for the one exactly when it is for the other, and then the same. */
  lemma LineAlike(c: Catalog, line: CartLine, currency: string)
    requires ChargedAlike(c, line.offerId)
    ensures
      var view := OfferView(c.products, c.lists, line.offerId);
      var live, at := LiveQuote(view, line), QuoteAt(view, Narrow(c.products, c.lists), line);
      && (Good(live, currency) || Good(at, currency) ==> at == live)
      && (at.Some? ==> live.Some? && live.value.unit == at.value.unit)
  {
    var id, view, asOf := line.offerId, OfferView(c.products, c.lists, line.offerId), Narrow(c.products, c.lists);
    FirstIffLast(c, id);
    ViewIsFirst(c.products, c.lists, id);
    NarrowIsLast(c.products, c.lists, id);
    if view.Some? {
      var live, at := LiveQuote(view, line), QuoteAt(view, asOf, line);
      var lists, options := view.value.lists, asOf[id].options;
      SelectedIff(lists, line.optionIds);
      if at.Some? { PricesAt(lists, options, line.optionIds); }
      if live.Some? { SelectedPrices(lists, line.optionIds); }
      if Good(live, currency) || Good(at, currency) {
        forall i | 0 <= i < |line.optionIds| ensures SamePrice(lists, options, line.optionIds[i]) {
          assert OptionAlike(c, FirstOffer(c.products, id).value, LastOffer(c.products, id).value, line.optionIds[i]);
        }
        QuotesEqualIff(view, asOf, line);
      }
    }
  }

  /** Quotes good for one currency together, and then equal, give one list of items or one rejection. */
  lemma {:induction false} ItemsAlike(cart: CartId, lines: seq<CartLine>, live: seq<Option<Quote>>, at: seq<Option<Quote>>)
    requires |lines| == |live| == |at| && CurrencyOf(live) == CurrencyOf(at)
    requires forall i :: 0 <= i < |lines| && (Good(live[i], CurrencyOf(live)) || Good(at[i], CurrencyOf(live))) ==> at[i] == live[i]
    ensures Items(cart, lines, at) == Items(cart, lines, live)
  {
    if lines != [] {
      var n := |lines| - 1;
      if n > 0 {
        assert CurrencyOf(live[..n]) == CurrencyOf(live) && CurrencyOf(at[..n]) == CurrencyOf(at);
        ItemsAlike(cart, lines[..n], live[..n], at[..n]);
      }
    }
  }

  lemma CartAlike(port: Port, cart: CartId, restaurant: RestaurantId, lines: seq<CartLine>)
    requires restaurant in port && forall id :: ChargedAlike(port[restaurant], id)
    ensures PricedAlike(port, cart, restaurant, lines)
  {
    var c := port[restaurant];
    var live := LiveQuotes(port, restaurant, lines);
    var at := QuotesAt(port, Narrow(c.products, c.lists), restaurant, lines);
    var currency := CurrencyOf(live);
    forall i | 0 <= i < |lines|
      ensures Good(live[i], currency) || Good(at[i], currency) ==> at[i] == live[i]
      ensures at[i].Some? ==> live[i].Some? && live[i].value.unit == at[i].value.unit
    {
      LineAlike(c, lines[i], currency);
    }
    if lines != [] && live[0].Some? && at[0].None? {
      ItemsIff(cart, lines, live);
      ItemsIff(cart, lines, at);
      assert FirstBad(live, 0) && FirstBad(at, 0);
      var i := RejectionNamesFirst(cart, lines, live);
      var j := RejectionNamesFirst(cart, lines, at);
      OneFirstBad(live, i, 0);
      OneFirstBad(at, j, 0);
    } else {
      ItemsAlike(cart, lines, live, at);
    }
  }

  /** The live pricer and the coordinate's pricer, at the head's own coordinate, on one cart. */
  ghost predicate PricedAlike(port: Port, cart: CartId, restaurant: RestaurantId, lines: seq<CartLine>)
    requires restaurant in port
  {
    var asOf := Narrow(port[restaurant].products, port[restaurant].lists);
    Priced(cart, lines, QuotesAt(port, asOf, restaurant, lines)) == Priced(cart, lines, LiveQuotes(port, restaurant, lines))
  }

  lemma OneLine(cart: CartId, line: CartLine, quote: Option<Quote>)
    ensures Priced(cart, [line], [quote]).Ok? <==> Good(quote, CurrencyOf([quote]))
    ensures Priced(cart, [line], [quote]).Ok? ==> Priced(cart, [line], [quote]).value.items == [PricedLine(line, quote.value)]
  {
    ItemsIff(cart, [line], [quote]);
    assert [quote][0] == quote;
  }

  lemma OneOption(lists: seq<ChoiceList>, options: map<nat, Money>, option: nat)
    requires FindInLists(lists, option).Some?
    ensures Selected(lists, [option]).Some? && |Selected(lists, [option]).value| == 1
    ensures Selected(lists, [option]).value[0].price == FindInLists(lists, option).value.1.price
    ensures OptionPrices(options, [option]) == if option in options then Some([options[option]]) else None
    ensures option in options ==>
              && SelectedAt(lists, [option], [options[option]]).Some? && |SelectedAt(lists, [option], [options[option]]).value| == 1
              && SelectedAt(lists, [option], [options[option]]).value[0].price == options[option]
  {
    assert [option][..0] == [] && Selected(lists, []) == Some([]) && OptionPrices(options, []) == Some([]);
    if option in options {
      var ids, prices := [option], [options[option]];
      assert ids[..0] == [] && prices[..0] == [] && SelectedAt(lists, [], []) == Some([]);
      assert OptionPrices(options, ids) == Some([] + prices) && [] + prices == prices;
      SelectedAtNeedsLists(lists, ids, prices);
    }
  }

  lemma UnitNeeded(port: Port, cart: CartId, restaurant: RestaurantId, id: nat)
    requires restaurant in port && PricedAlike(port, cart, restaurant, [CartLine(id, 1, [])])
    requires FirstOffer(port[restaurant].products, id).Some? && LastOffer(port[restaurant].products, id).Some?
    ensures FirstOffer(port[restaurant].products, id).value.price == LastOffer(port[restaurant].products, id).value.price
  {
    var c := port[restaurant];
    ViewIsFirst(c.products, c.lists, id);
    NarrowIsLast(c.products, c.lists, id);
    OneLineCompared(port, cart, restaurant, CartLine(id, 1, []));
    assert OptionPrices(Narrow(c.products, c.lists)[id].options, []) == Some([]);
  }

  lemma OptionNeeded(port: Port, cart: CartId, restaurant: RestaurantId, id: nat, option: nat)
    requires restaurant in port && PricedAlike(port, cart, restaurant, [CartLine(id, 1, [option])])
    requires FirstOffer(port[restaurant].products, id).Some? && LastOffer(port[restaurant].products, id).Some?
    requires FirstOffer(port[restaurant].products, id).value.price == LastOffer(port[restaurant].products, id).value.price
    requires FindInLists(Linked(port[restaurant].lists, FirstOffer(port[restaurant].products, id).value.listIds), option).Some?
    ensures OptionAlike(port[restaurant], FirstOffer(port[restaurant].products, id).value, LastOffer(port[restaurant].products, id).value, option)
  {
    var c := port[restaurant];
    ViewIsFirst(c.products, c.lists, id);
    NarrowIsLast(c.products, c.lists, id);
    OneLineCompared(port, cart, restaurant, CartLine(id, 1, [option]));
    OneOption(OfferView(c.products, c.lists, id).value.lists, Narrow(c.products, c.lists)[id].options, option);
  }

  /** Carts of one line tell the two apart wherever an offer is not charged alike. */
  lemma AlikeNeeded(port: Port, cart: CartId, restaurant: RestaurantId, id: nat)
    requires restaurant in port && forall lines :: PricedAlike(port, cart, restaurant, lines)
    ensures ChargedAlike(port[restaurant], id)
  {
    var c := port[restaurant];
    if FirstOffer(c.products, id).Some? && LastOffer(c.products, id).Some? {
      UnitNeeded(port, cart, restaurant, id);
      var first, last := FirstOffer(c.products, id).value, LastOffer(c.products, id).value;
      forall option | FindInLists(Linked(c.lists, first.listIds), option).Some? ensures OptionAlike(c, first, last, option) {
        OptionNeeded(port, cart, restaurant, id, option);
      }
    }
  }

  lemma OneLineCompared(port: Port, cart: CartId, restaurant: RestaurantId, line: CartLine)
    requires restaurant in port && PricedAlike(port, cart, restaurant, [line])
    ensures
      var c := port[restaurant];
      var view := OfferView(c.products, c.lists, line.offerId);
      var live, at := LiveQuote(view, line), QuoteAt(view, Narrow(c.products, c.lists), line);
      && (Good(live, CurrencyOf([live])) <==> Good(at, CurrencyOf([at])))
      && (Good(live, CurrencyOf([live])) ==> at == live)
  {
    var c := port[restaurant];
    var view := OfferView(c.products, c.lists, line.offerId);
    var live, at := LiveQuote(view, line), QuoteAt(view, Narrow(c.products, c.lists), line);
    assert LiveQuotes(port, restaurant, [line]) == [live];
    assert QuotesAt(port, Narrow(c.products, c.lists), restaurant, [line]) == [at];
    OneLine(cart, line, live);
    OneLine(cart, line, at);
    if Good(live, CurrencyOf([live])) {
      assert [PricedLine(line, live.value)][0] == [PricedLine(line, at.value)][0];
    }
  }

  /** Every cart is priced at the head's own coordinate as the live pricer prices it, exactly when
      the catalog charges every offer alike by its first and its last word. */
  lemma HeadPricingIff(port: Port, cart: CartId, restaurant: RestaurantId)
    requires restaurant in port
    ensures (forall lines :: PricedAlike(port, cart, restaurant, lines)) <==> (forall id :: ChargedAlike(port[restaurant], id))
  {
    if forall id :: ChargedAlike(port[restaurant], id) {
      forall lines ensures PricedAlike(port, cart, restaurant, lines) {
        CartAlike(port, cart, restaurant, lines);
      }
    }
    if forall lines :: PricedAlike(port, cart, restaurant, lines) {
      forall id ensures ChargedAlike(port[restaurant], id) {
        AlikeNeeded(port, cart, restaurant, id);
      }
    }
  }

  lemma {:induction false} FirstOfferIs(products: seq<Product>, id: nat)
    ensures FirstOffer(products, id).Some? ==> Offered(products, FirstOffer(products, id).value) && FirstOffer(products, id).value.id == id
  {
    if products != [] {
      FindOfferIs(products[0].offers, id);
      FirstOfferIs(products[1..], id);
      assert forall p :: 0 <= p < |products| - 1 ==> products[1..][p] == products[p + 1];
    }
  }

  lemma {:induction false} LastInIs(offers: seq<Offer>, id: nat)
    ensures LastIn(offers, id).Some? ==> LastIn(offers, id).value in offers && LastIn(offers, id).value.id == id
  {
    if offers != [] { LastInIs(offers[..|offers| - 1], id); }
  }

  lemma {:induction false} LastOfferIs(products: seq<Product>, id: nat)
    ensures LastOffer(products, id).Some? ==> Offered(products, LastOffer(products, id).value) && LastOffer(products, id).value.id == id
  {
    if products != [] {
      LastInIs(products[|products| - 1].offers, id);
      LastOfferIs(products[..|products| - 1], id);
    }
  }

  /** A catalog in which no identity means two things says the same first and last. */
  lemma UnambiguousAgrees(c: Catalog, id: nat)
    requires Unambiguous(c)
    ensures SameOffer(c, id) && ChargedAlike(c, id)
  {
    FirstOfferIs(c.products, id);
    LastOfferIs(c.products, id);
    if FirstOffer(c.products, id).Some? && LastOffer(c.products, id).Some? {
      var first, last := FirstOffer(c.products, id).value, LastOffer(c.products, id).value;
      assert OnePrice(c.lists, first.listIds);
      forall option | FindInLists(Linked(c.lists, first.listIds), option).Some?
        ensures SamePrice(Linked(c.lists, first.listIds), Reachable(c.lists, last.listIds), option)
        ensures OptionAlike(c, first, last, option)
      {
        FindInListsIs(c.lists, first.listIds, option);
        ReachedIsReachable(c.lists, first.listIds, FindInLists(Linked(c.lists, first.listIds), option).value.1);
        ReachableIs(c.lists, first.listIds, option);
      }
    }
  }

  lemma PricedAtHead(port: Port, cart: CartId, restaurant: RestaurantId, lines: seq<CartLine>)
    requires restaurant in port && Unambiguous(port[restaurant])
    ensures PricedAlike(port, cart, restaurant, lines)
  {
    forall id ensures ChargedAlike(port[restaurant], id) {
      UnambiguousAgrees(port[restaurant], id);
    }
    HeadPricingIff(port, cart, restaurant);
  }

  /** What the two pricers charge for a line of an offer without options: the live one its first
      price, the coordinate its last. */
  lemma OneLineCharges(port: Port, cart: CartId, restaurant: RestaurantId, id: nat, quantity: int)
    requires restaurant in port && FirstOffer(port[restaurant].products, id).Some?
    ensures LastOffer(port[restaurant].products, id).Some?
    ensures
      var c, lines := port[restaurant], [CartLine(id, quantity, [])];
      var first, last := FirstOffer(c.products, id).value.price, LastOffer(c.products, id).value.price;
      var live := Priced(cart, lines, LiveQuotes(port, restaurant, lines));
      var at := Priced(cart, lines, QuotesAt(port, Narrow(c.products, c.lists), restaurant, lines));
      && live.Ok? && live.value.total == Money(first.cents * quantity, first.currency)
      && at.Ok? && at.value.total == Money(last.cents * quantity, last.currency)
  {
    var c, line := port[restaurant], CartLine(id, quantity, []);
    FirstIffLast(c, id);
    ViewIsFirst(c.products, c.lists, id);
    NarrowIsLast(c.products, c.lists, id);
    var view, asOf := OfferView(c.products, c.lists, id), Narrow(c.products, c.lists);
    assert OptionPrices(asOf[id].options, []) == Some([]) && Selected(view.value.lists, []) == Some([]);
    var live, at := LiveQuote(view, line), QuoteAt(view, asOf, line);
    assert LiveQuotes(port, restaurant, [line]) == [live] && QuotesAt(port, asOf, restaurant, [line]) == [at];
    OneLineTotal(cart, line, live);
    OneLineTotal(cart, line, at);
  }

  lemma OneLineTotal(cart: CartId, line: CartLine, quote: Option<Quote>)
    requires Good(quote, CurrencyOf([quote])) && quote.value.options == []
    ensures Priced(cart, [line], [quote]).Ok?
    ensures Priced(cart, [line], [quote]).value.total == Money(quote.value.unit.cents * line.quantity, quote.value.unit.currency)
  {
    OneLine(cart, line, quote);
    PricedIff(cart, [line], [quote]);
    var items := Priced(cart, [line], [quote]).value.items;
    assert items == [PricedLine(line, quote.value)] && items[..0] == [];
    Coherent(cart, [line], [quote]);
    assert SumLines(items) == SumLines(items[..0]) + items[0].lineTotal.cents;
  }

  /** `CatalogImported`: the content of the import replaces the catalog's, identities unchecked. */
  function Imported(before: Catalog, products: seq<Product>, lists: seq<ChoiceList>): Catalog {
    before.(products := products, lists := lists)
  }

  /** The smallest catalog that is not charged alike, as an import gives it to a catalog that has
      nothing yet: an offer listed twice is charged at its first price by the one and at its last by
      the other. */
  lemma AmbiguousDiffers(cart: CartId, restaurant: RestaurantId, first: Money, last: Money)
    requires first != last
    ensures
      var c := Imported(Catalog([], []), [Product(1, "", [Offer(1, "", first, [])]), Product(2, "", [Offer(1, "", last, [])])], []);
      var port, lines := map[restaurant := c], [CartLine(1, 1, [])];
      && !ChargedAlike(c, 1)
      && var live, at := Priced(cart, lines, LiveQuotes(port, restaurant, lines)), Priced(cart, lines, QuotesAt(port, Narrow(c.products, c.lists), restaurant, lines));
      && live.Ok? && live.value.total == first && at.Ok? && at.value.total == last
  {
    var products := [Product(1, "", [Offer(1, "", first, [])]), Product(2, "", [Offer(1, "", last, [])])];
    assert FirstOffer(products, 1) == Some(products[0].offers[0]);
    assert LastOffer(products, 1) == Some(products[1].offers[0]);
    OneLineCharges(map[restaurant := Imported(Catalog([], []), products, [])], cart, restaurant, 1, 1);
  }
}
