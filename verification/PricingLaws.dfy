/** What the two pricers of Pricing.dfy guarantee, for every catalog, coordinate and cart. */
module PricingLaws {
  import opened Wrappers
  import opened Pricing

  // ---- when a cart is priced, and what the amounts are -----------------------------------------

  ghost predicate AllGood(quotes: seq<Option<Quote>>, currency: string) {
    forall i :: 0 <= i < |quotes| ==> Good(quotes[i], currency)
  }

  lemma {:induction false} ItemsIff(cart: CartId, lines: seq<CartLine>, quotes: seq<Option<Quote>>)
    requires |lines| == |quotes|
    ensures Items(cart, lines, quotes).Ok? <==> AllGood(quotes, CurrencyOf(quotes))
    ensures Items(cart, lines, quotes).Ok? ==>
              var items := Items(cart, lines, quotes).value;
              |items| == |lines| && forall i :: 0 <= i < |items| ==> items[i] == PricedLine(lines[i], quotes[i].value)
  {
    if lines != [] {
      var n := |lines| - 1;
      ItemsIff(cart, lines[..n], quotes[..n]);
      assert n > 0 ==> CurrencyOf(quotes[..n]) == CurrencyOf(quotes);
      assert forall i :: 0 <= i < n ==> quotes[..n][i] == quotes[i];
      if AllGood(quotes, CurrencyOf(quotes)) {
        assert AllGood(quotes[..n], CurrencyOf(quotes[..n]));
      }
    }
  }

  /** A rejection names the first line that does not resolve in the first line's currency. */
  lemma {:induction false} RejectionNamesFirst(cart: CartId, lines: seq<CartLine>, quotes: seq<Option<Quote>>) returns (i: nat)
    requires |lines| == |quotes| && Items(cart, lines, quotes).Err?
    ensures FirstBad(quotes, i) && Items(cart, lines, quotes) == Err(PriceUnresolvable(cart, lines[i].offerId))
  {
    var n := |lines| - 1;
    assert n > 0 ==> CurrencyOf(quotes[..n]) == CurrencyOf(quotes);
    ItemsIff(cart, lines[..n], quotes[..n]);
    if Items(cart, lines[..n], quotes[..n]).Err? {
      i := RejectionNamesFirst(cart, lines[..n], quotes[..n]);
      assert forall j :: 0 <= j <= i ==> quotes[..n][j] == quotes[j];
    } else {
      assert forall j :: 0 <= j < n ==> quotes[..n][j] == quotes[j];
      i := n;
    }
  }

  ghost predicate FirstBad(quotes: seq<Option<Quote>>, i: nat) {
    && i < |quotes| && !Good(quotes[i], CurrencyOf(quotes))
    && forall j :: 0 <= j < i ==> Good(quotes[j], CurrencyOf(quotes))
  }

  function SumCents(lines: seq<CartLine>, quotes: seq<Option<Quote>>): int
    requires |lines| == |quotes|
  {
    if lines == [] then 0
    else
      var n := |lines| - 1;
      SumCents(lines[..n], quotes[..n]) + (if quotes[n].Some? then LineCents(quotes[n].value, lines[n].quantity) else 0)
  }

  lemma {:induction false} SumLinesIs(cart: CartId, lines: seq<CartLine>, quotes: seq<Option<Quote>>)
    requires |lines| == |quotes| && Items(cart, lines, quotes).Ok?
    ensures SumLines(Items(cart, lines, quotes).value) == SumCents(lines, quotes)
  {
    if lines != [] {
      var n := |lines| - 1;
      SumLinesIs(cart, lines[..n], quotes[..n]);
      var items := Items(cart, lines[..n], quotes[..n]).value;
      assert (items + [PricedLine(lines[n], quotes[n].value)])[..|items|] == items;
    }
  }

  /** A cart is priced exactly when it has a line and every line resolves in the first one's
      currency; its total is the sum over the lines. */
  lemma PricedIff(cart: CartId, lines: seq<CartLine>, quotes: seq<Option<Quote>>)
    requires |lines| == |quotes|
    ensures Priced(cart, lines, quotes).Ok? <==> lines != [] && AllGood(quotes, CurrencyOf(quotes))
    ensures Priced(cart, lines, quotes).Ok? ==>
              Priced(cart, lines, quotes).value.total == Money(SumCents(lines, quotes), CurrencyOf(quotes))
  {
    ItemsIff(cart, lines, quotes);
    if Items(cart, lines, quotes).Ok? { SumLinesIs(cart, lines, quotes); }
  }

  /** One currency, and the line total is unit price plus options, times the quantity. */
  ghost predicate ItemCoherent(item: Item, quantity: int, currency: string) {
    && item.quantity == quantity
    && item.lineTotal == Money((item.unitPrice.cents + OptionCents(item.selectedOptions)) * quantity, currency)
    && item.unitPrice.currency == currency && AllIn(item.selectedOptions, currency)
  }

  lemma ItemsCoherent(cart: CartId, lines: seq<CartLine>, quotes: seq<Option<Quote>>)
    requires |lines| == |quotes| && Items(cart, lines, quotes).Ok?
    ensures
      var items := Items(cart, lines, quotes).value;
      |items| == |lines| && forall i :: 0 <= i < |items| ==> ItemCoherent(items[i], lines[i].quantity, CurrencyOf(quotes))
  {
    ItemsIff(cart, lines, quotes);
    var items := Items(cart, lines, quotes).value;
    forall i | 0 <= i < |items| ensures ItemCoherent(items[i], lines[i].quantity, CurrencyOf(quotes)) {
      assert Good(quotes[i], CurrencyOf(quotes)) && items[i] == PricedLine(lines[i], quotes[i].value);
    }
  }

  /** The payout legs share the total out without remainder. */
  ghost predicate Balanced(b: Breakdown, total: Money) {
    && b.total == total
    && b.articles.cents + b.delivery.cents + b.serviceFee.cents == total.cents
    && b.restaurantPayout.cents + b.riderPayout.cents + b.captainNet.cents == total.cents + b.restaurantContribution.cents
  }

  /** One number in three places, one currency throughout: the line totals add up to the total,
      which is the breakdown's. */
  lemma Coherent(cart: CartId, lines: seq<CartLine>, quotes: seq<Option<Quote>>)
    requires |lines| == |quotes| && Priced(cart, lines, quotes).Ok?
    ensures
      var p := Priced(cart, lines, quotes).value;
      && p.total.cents == SumLines(p.items) && Balanced(p.breakdown, p.total)
      && |p.items| == |lines|
      && forall i :: 0 <= i < |p.items| ==> ItemCoherent(p.items[i], lines[i].quantity, p.total.currency)
  {
    ItemsCoherent(cart, lines, quotes);
  }

  // ---- carts side by side, carts reordered -----------------------------------------------------

  lemma {:induction false} SumCentsConcat(a: seq<CartLine>, qa: seq<Option<Quote>>, b: seq<CartLine>, qb: seq<Option<Quote>>)
    requires |a| == |qa| && |b| == |qb|
    ensures SumCents(a + b, qa + qb) == SumCents(a, qa) + SumCents(b, qb)
  {
    if b == [] {
      assert a + b == a && qa + qb == qa;
    } else {
      var n := |b| - 1;
      assert (a + b)[..|a| + n] == a + b[..n] && (qa + qb)[..|a| + n] == qa + qb[..n];
      SumCentsConcat(a, qa, b[..n], qb[..n]);
    }
  }

  lemma LiveQuotesConcat(port: Port, restaurant: RestaurantId, a: seq<CartLine>, b: seq<CartLine>)
    ensures LiveQuotes(port, restaurant, a + b) == LiveQuotes(port, restaurant, a) + LiveQuotes(port, restaurant, b)
  {
  }

  /** Two carts of one restaurant in one: priced exactly when both are and in one currency, and then
      at the sum of their totals. */
  lemma Additive(port: Port, cart: CartId, restaurant: RestaurantId, a: seq<CartLine>, b: seq<CartLine>)
    requires a != [] && b != []
    ensures
      var pa := Priced(cart, a, LiveQuotes(port, restaurant, a));
      var pb := Priced(cart, b, LiveQuotes(port, restaurant, b));
      var pab := Priced(cart, a + b, LiveQuotes(port, restaurant, a + b));
      && (pab.Ok? <==> pa.Ok? && pb.Ok? && pa.value.total.currency == pb.value.total.currency)
      && (pab.Ok? ==> pab.value.total == Money(pa.value.total.cents + pb.value.total.cents, pa.value.total.currency))
  {
    var qa, qb := LiveQuotes(port, restaurant, a), LiveQuotes(port, restaurant, b);
    LiveQuotesConcat(port, restaurant, a, b);
    PricedIff(cart, a, qa);
    PricedIff(cart, b, qb);
    PricedIff(cart, a + b, qa + qb);
    GoodConcat(qa, qb);
    SumCentsConcat(a, qa, b, qb);
  }

  lemma GoodConcat(qa: seq<Option<Quote>>, qb: seq<Option<Quote>>)
    requires qa != [] && qb != []
    ensures CurrencyOf(qa + qb) == CurrencyOf(qa)
    ensures AllGood(qa + qb, CurrencyOf(qa + qb))
      <==> AllGood(qa, CurrencyOf(qa)) && AllGood(qb, CurrencyOf(qb)) && CurrencyOf(qa) == CurrencyOf(qb)
  {
    var all := qa + qb;
    if AllGood(all, CurrencyOf(all)) {
      assert all[|qa|] == qb[0];
      assert forall i :: 0 <= i < |qb| ==> qb[i] == all[|qa| + i];
      assert forall i :: 0 <= i < |qa| ==> qa[i] == all[i];
    }
  }

  /** What one line adds to the total. */
  function Share(port: Port, restaurant: RestaurantId, line: CartLine): int {
    var quote := LiveQuote(OfferById(port, restaurant, line.offerId), line);
    if quote.Some? then LineCents(quote.value, line.quantity) else 0
  }

  function Shares(port: Port, restaurant: RestaurantId, lines: seq<CartLine>): int {
    if lines == [] then 0 else Shares(port, restaurant, lines[..|lines| - 1]) + Share(port, restaurant, lines[|lines| - 1])
  }

  lemma {:induction false} SumCentsShares(port: Port, restaurant: RestaurantId, lines: seq<CartLine>)
    ensures SumCents(lines, LiveQuotes(port, restaurant, lines)) == Shares(port, restaurant, lines)
  {
    if lines != [] {
      var but := lines[..|lines| - 1];
      assert LiveQuotes(port, restaurant, lines)[..|but|] == LiveQuotes(port, restaurant, but);
      SumCentsShares(port, restaurant, but);
    }
  }

  lemma {:induction false} SharesConcat(port: Port, restaurant: RestaurantId, a: seq<CartLine>, b: seq<CartLine>)
    ensures Shares(port, restaurant, a + b) == Shares(port, restaurant, a) + Shares(port, restaurant, b)
  {
    if b == [] {
      assert a + b == a;
    } else {
      assert (a + b)[..|a + b| - 1] == a + b[..|b| - 1];
      SharesConcat(port, restaurant, a, b[..|b| - 1]);
    }
  }

  lemma SameWithoutFirst(a: seq<CartLine>, b: seq<CartLine>, i: nat)
    requires a != [] && i < |b| && b[i] == a[0] && multiset(a) == multiset(b)
    ensures multiset(a[1..]) == multiset(b[..i] + b[i + 1..])
  {
    assert a == [a[0]] + a[1..];
    assert b == b[..i] + ([b[i]] + b[i + 1..]);
    assert multiset(b[..i] + b[i + 1..]) == multiset(b) - multiset{a[0]};
    assert multiset(a[1..]) == multiset(a) - multiset{a[0]};
  }

  lemma {:induction false} SharesReordered(port: Port, restaurant: RestaurantId, a: seq<CartLine>, b: seq<CartLine>)
    requires multiset(a) == multiset(b)
    ensures Shares(port, restaurant, a) == Shares(port, restaurant, b)
    decreases |a|
  {
    if a == [] {
      assert |multiset(b)| == 0;
    } else {
      assert a[0] in multiset(b);
      var i :| 0 <= i < |b| && b[i] == a[0];
      SameWithoutFirst(a, b, i);
      SharesReordered(port, restaurant, a[1..], b[..i] + b[i + 1..]);
      assert a == [a[0]] + a[1..] && b == b[..i] + ([b[i]] + b[i + 1..]);
      SharesConcat(port, restaurant, [a[0]], a[1..]);
      SharesConcat(port, restaurant, b[..i], [b[i]] + b[i + 1..]);
      SharesConcat(port, restaurant, [b[i]], b[i + 1..]);
      SharesConcat(port, restaurant, b[..i], b[i + 1..]);
    }
  }

  /** Reordering the lines changes neither whether the cart is priced nor its total. */
  lemma Reordered(port: Port, cart: CartId, restaurant: RestaurantId, a: seq<CartLine>, b: seq<CartLine>)
    requires multiset(a) == multiset(b)
    requires Priced(cart, a, LiveQuotes(port, restaurant, a)).Ok?
    ensures Priced(cart, b, LiveQuotes(port, restaurant, b)).Ok?
    ensures Priced(cart, b, LiveQuotes(port, restaurant, b)).value.total == Priced(cart, a, LiveQuotes(port, restaurant, a)).value.total
  {
    var qa, qb := LiveQuotes(port, restaurant, a), LiveQuotes(port, restaurant, b);
    PricedIff(cart, a, qa);
    PricedIff(cart, b, qb);
    assert b != [] by { assert a[0] in multiset(b); }
    forall i | 0 <= i < |b| ensures Good(qb[i], CurrencyOf(qa)) {
      assert b[i] in multiset(a);
      var j :| 0 <= j < |a| && a[j] == b[i];
      assert qa[j] == qb[i];
    }
    SharesReordered(port, restaurant, a, b);
    SumCentsShares(port, restaurant, a);
    SumCentsShares(port, restaurant, b);
  }

  // ---- the coordinate and the head --------------------------------------------------------------

  /** An option's price at the coordinate is the one its live list gives it. */
  predicate SamePrice(lists: seq<ChoiceList>, options: map<nat, Money>, id: nat) {
    FindInLists(lists, id).Some? && id in options && options[id] == FindInLists(lists, id).value.1.price
  }

  predicate Listed(lists: seq<ChoiceList>, ids: seq<nat>) {
    forall i :: 0 <= i < |ids| ==> FindInLists(lists, ids[i]).Some?
  }

  /** On the prices this line uses, the coordinate says what the catalog says: nothing, where the
      catalog cannot resolve the line itself, and otherwise the same unit price and the same price
      for each selected option. */
  ghost predicate Agree(view: Option<View>, asOf: AsOf, line: CartLine) {
    view.Some? && Listed(view.value.lists, line.optionIds) ==>
      && line.offerId in asOf && asOf[line.offerId].unit == view.value.price
      && forall i :: 0 <= i < |line.optionIds| ==> SamePrice(view.value.lists, asOf[line.offerId].options, line.optionIds[i])
  }

  lemma {:induction false} FindChoiceId(options: seq<Choice>, id: nat)
    ensures FindChoice(options, id).Some? ==> FindChoice(options, id).value.id == id
  {
    if options != [] { FindChoiceId(options[1..], id); }
  }

  lemma {:induction false} FindInListsId(lists: seq<ChoiceList>, id: nat)
    ensures FindInLists(lists, id).Some? ==> FindInLists(lists, id).value.1.id == id
  {
    if lists != [] {
      FindChoiceId(lists[0].options, id);
      FindInListsId(lists[1..], id);
    }
  }

  lemma {:induction false} SelectedIff(lists: seq<ChoiceList>, ids: seq<nat>)
    ensures Selected(lists, ids).Some? <==> Listed(lists, ids)
    ensures Selected(lists, ids).Some? ==> |Selected(lists, ids).value| == |ids|
  {
    if ids != [] {
      var but := ids[..|ids| - 1];
      SelectedIff(lists, but);
      if Listed(lists, but) && FindInLists(lists, ids[|ids| - 1]).Some? {
        forall i | 0 <= i < |ids| ensures FindInLists(lists, ids[i]).Some? {
          assert i < |but| ==> ids[i] == but[i];
        }
      }
    }
  }

  lemma {:induction false} SelectedAtNeedsLists(lists: seq<ChoiceList>, ids: seq<nat>, prices: seq<Money>)
    requires |ids| == |prices|
    ensures SelectedAt(lists, ids, prices).Some? <==> Listed(lists, ids)
    ensures SelectedAt(lists, ids, prices).Some? ==> |SelectedAt(lists, ids, prices).value| == |ids|
  {
    if ids != [] {
      var n := |ids| - 1;
      SelectedAtNeedsLists(lists, ids[..n], prices[..n]);
      if Listed(lists, ids[..n]) && FindInLists(lists, ids[n]).Some? {
        forall i | 0 <= i < |ids| ensures FindInLists(lists, ids[i]).Some? {
          assert i < n ==> ids[i] == ids[..n][i];
        }
      }
    }
  }

  /** Two resolved selections are equal exactly when every option has the same price in both. */
  lemma {:induction false} SameSelectionIff(lists: seq<ChoiceList>, options: map<nat, Money>, ids: seq<nat>)
    requires Listed(lists, ids)
    ensures (OptionPrices(options, ids).Some? && SelectedAt(lists, ids, OptionPrices(options, ids).value) == Selected(lists, ids))
      <==> forall i :: 0 <= i < |ids| ==> SamePrice(lists, options, ids[i])
  {
    SelectedIff(lists, ids);
    if ids != [] {
      var n := |ids| - 1;
      var but, last := ids[..n], ids[n];
      assert Listed(lists, but);
      SelectedIff(lists, but);
      SameSelectionIff(lists, options, but);
      FindInListsId(lists, last);
      assert (forall i :: 0 <= i < |ids| ==> SamePrice(lists, options, ids[i]))
        <==> (forall i :: 0 <= i < n ==> SamePrice(lists, options, but[i])) && SamePrice(lists, options, last);
      if OptionPrices(options, ids).Some? {
        var prices := OptionPrices(options, ids).value;
        assert prices[..n] == OptionPrices(options, but).value;
        SelectedAtNeedsLists(lists, but, prices[..n]);
        var (listId, option) := FindInLists(lists, last).value;
        SnocEqual(SelectedAt(lists, but, prices[..n]).value, SelectedOption(last, listId, option.name, prices[n]),
                  Selected(lists, but).value, SelectedOption(option.id, listId, option.name, option.price));
      }
    }
  }

  lemma SnocEqual(a: seq<SelectedOption>, x: SelectedOption, b: seq<SelectedOption>, y: SelectedOption)
    requires |a| == |b|
    ensures a + [x] == b + [y] <==> a == b && x == y
  {
    if a + [x] == b + [y] {
      assert a == (a + [x])[..|a|] == b;
      assert x == (a + [x])[|a|] == y;
    }
  }

  /** The two resolutions of a line are equal exactly when catalog and coordinate agree on it. */
  lemma QuotesEqualIff(view: Option<View>, asOf: AsOf, line: CartLine)
    ensures QuoteAt(view, asOf, line) == LiveQuote(view, line) <==> Agree(view, asOf, line)
  {
    if view.Some? {
      SelectedIff(view.value.lists, line.optionIds);
      var price := PriceOf(asOf, line.offerId, line.optionIds);
      if price.Some? { SelectedAtNeedsLists(view.value.lists, line.optionIds, price.value.1); }
      if Listed(view.value.lists, line.optionIds) && line.offerId in asOf {
        SameSelectionIff(view.value.lists, asOf[line.offerId].options, line.optionIds);
      }
    }
  }

  ghost predicate AllAgree(port: Port, asOf: AsOf, restaurant: RestaurantId, lines: seq<CartLine>) {
    forall i :: 0 <= i < |lines| ==> Agree(OfferById(port, restaurant, lines[i].offerId), asOf, lines[i])
  }

  lemma AgreeingQuotes(port: Port, asOf: AsOf, restaurant: RestaurantId, lines: seq<CartLine>)
    ensures AllAgree(port, asOf, restaurant, lines) <==> QuotesAt(port, asOf, restaurant, lines) == LiveQuotes(port, restaurant, lines)
  {
    var live, at := LiveQuotes(port, restaurant, lines), QuotesAt(port, asOf, restaurant, lines);
    forall i | 0 <= i < |lines|
      ensures at[i] == live[i] <==> Agree(OfferById(port, restaurant, lines[i].offerId), asOf, lines[i])
    {
      QuotesEqualIff(OfferById(port, restaurant, lines[i].offerId), asOf, lines[i]);
    }
  }

  /** Agreement on the prices used gives the same result, success or rejection. For a cart the live
      pricer accepts nothing less does; for one it rejects, the coordinate must reject as well, its
      own first bad line naming the same offer. */
  lemma EquivalentIff(port: Port, asOf: AsOf, cart: CartId, restaurant: RestaurantId, lines: seq<CartLine>)
    ensures
      var live := Priced(cart, lines, LiveQuotes(port, restaurant, lines));
      var at := Priced(cart, lines, QuotesAt(port, asOf, restaurant, lines));
      && (AllAgree(port, asOf, restaurant, lines) ==> at == live)
      && (live.Ok? ==> (at == live <==> AllAgree(port, asOf, restaurant, lines)))
      && (live.Err? && lines != [] ==>
           (at == live <==> FailAlike(lines, LiveQuotes(port, restaurant, lines), QuotesAt(port, asOf, restaurant, lines))))
  {
    var live, at := LiveQuotes(port, restaurant, lines), QuotesAt(port, asOf, restaurant, lines);
    AgreeingQuotes(port, asOf, restaurant, lines);
    ItemsIff(cart, lines, live);
    ItemsIff(cart, lines, at);
    if Items(cart, lines, live).Ok? && lines != [] && Priced(cart, lines, at) == Priced(cart, lines, live) {
      forall i | 0 <= i < |lines| ensures at[i] == live[i] {
        assert Good(live[i], CurrencyOf(live)) && Good(at[i], CurrencyOf(at));
        assert PricedLine(lines[i], live[i].value) == PricedLine(lines[i], at[i].value);
      }
    }
    if Items(cart, lines, live).Err? {
      RejectionsEqualIff(cart, lines, live, at);
    }
  }

  /** Both fail, first on a line of the same offer. */
  ghost predicate FailAlike(lines: seq<CartLine>, live: seq<Option<Quote>>, at: seq<Option<Quote>>)
    requires |lines| == |live| == |at|
  {
    exists i: nat, j: nat :: FirstBad(live, i) && FirstBad(at, j) && lines[i].offerId == lines[j].offerId
  }

  lemma RejectionsEqualIff(cart: CartId, lines: seq<CartLine>, live: seq<Option<Quote>>, at: seq<Option<Quote>>)
    requires |lines| == |live| == |at| && Items(cart, lines, live).Err?
    ensures Items(cart, lines, at) == Items(cart, lines, live) <==> FailAlike(lines, live, at)
  {
    var i := RejectionNamesFirst(cart, lines, live);
    if Items(cart, lines, at).Err? {
      var j := RejectionNamesFirst(cart, lines, at);
      if FailAlike(lines, live, at) {
        var k: nat, l: nat :| FirstBad(live, k) && FirstBad(at, l) && lines[k].offerId == lines[l].offerId;
        OneFirstBad(live, i, k);
        OneFirstBad(at, j, l);
      }
    } else {
      ItemsIff(cart, lines, at);
      assert forall l: nat :: !FirstBad(at, l);
    }
  }

  lemma OneFirstBad(quotes: seq<Option<Quote>>, i: nat, j: nat)
    requires FirstBad(quotes, i) && FirstBad(quotes, j)
    ensures i == j
  {
  }

  // ---- the snapshot -----------------------------------------------------------------------------

  /** `CatalogSnapshot::load`, as the port its lookups make it. */
  function Snapshot(port: Port, restaurant: RestaurantId): Port {
    if restaurant in port then map[restaurant := port[restaurant]] else map[]
  }

  /** Pricing through the snapshot is pricing through the live port for the restaurant it was loaded
      for, and for any other it rejects on the first line. */
  lemma SnapshotPrices(port: Port, loaded: RestaurantId, cart: CartId, restaurant: RestaurantId, lines: seq<CartLine>)
    ensures
      var through := Priced(cart, lines, LiveQuotes(Snapshot(port, loaded), restaurant, lines));
      through == if restaurant == loaded then Priced(cart, lines, LiveQuotes(port, restaurant, lines))
                 else if lines == [] then Err(CartEmpty(cart))
                 else Err(PriceUnresolvable(cart, lines[0].offerId))
  {
    var quotes := LiveQuotes(Snapshot(port, loaded), restaurant, lines);
    if restaurant == loaded {
      assert quotes == LiveQuotes(port, restaurant, lines);
    } else if lines != [] {
      ItemsIff(cart, lines, quotes);
      assert !Good(quotes[0], CurrencyOf(quotes));
      var i := RejectionNamesFirst(cart, lines, quotes);
    }
  }
}
