/** The money of `place_order` (crates/application/src/commands.rs): what is charged, what is debited
    and what is frozen, in one attempt and over retries. */
module Checkout {
  import opened Wrappers
  import opened Pricing
  import opened PricingLaws
  import opened Credit

  // ---- retries -------------------------------------------------------------------------------

  /** What may happen to the customer's ledger between two attempts at one order: grants, debits for
      other orders, and further attempts at this one for the same gross. */
  datatype Later = GrantMore(claim: nat, amount: Money) | OtherDebit(order: nat, amount: Money) | Retry

  function Emitted(events: seq<Event>, c: Command): seq<Event> {
    match Decide(events, c)
    case Emit(e) => events + [e]
    case _ => events
  }

  /** The credit is spent only when there is some to apply. */
  function Spent(events: seq<Event>, order: nat, applied: Money): seq<Event> {
    if applied.cents > 0 then Emitted(events, ConsumeCommand(order, applied)) else events
  }

  function AfterOne(events: seq<Event>, later: Later, order: nat, gross: Money): seq<Event>
    requires gross.cents >= 0
  {
    match later
    case GrantMore(claim, amount) => Emitted(events, GrantCommand(claim, amount))
    case OtherDebit(other, amount) => Emitted(events, ConsumeCommand(other, amount))
    case Retry => Spent(events, order, Money(CreditToApply(events, order, gross), gross.currency))
  }

  function After(events: seq<Event>, later: seq<Later>, order: nat, gross: Money): seq<Event>
    requires gross.cents >= 0
  {
    if later == [] then events
    else AfterOne(After(events, later[..|later| - 1], order, gross), later[|later| - 1], order, gross)
  }

  ghost predicate Others(later: seq<Later>, order: nat) {
    forall i :: 0 <= i < |later| && later[i].OtherDebit? ==> later[i].order != order
  }

  /** However the ledger moves on, an attempt at the same gross applies the same credit. */
  ghost predicate RetryStable(events: seq<Event>, order: nat, gross: Money)
    requires gross.cents >= 0
  {
    forall later :: Others(later, order) ==>
      CreditToApply(After(events, later, order, gross), order, gross) == CreditToApply(events, order, gross)
  }

  /** What keeps it: the order was debited, or there is nothing to cover, or the ledger is in
      another currency. */
  predicate Pinned(events: seq<Event>, order: nat, gross: Money) {
    DebitOf(events, order).Some? || gross.cents == 0 || (Fold(events).Some? && Fold(events).value.currency != gross.currency)
  }

  lemma OneKeepsPin(events: seq<Event>, later: Later, order: nat, gross: Money)
    requires gross.cents >= 0 && Pinned(events, order, gross) && (later.OtherDebit? ==> later.order != order)
    ensures
      var after := AfterOne(events, later, order, gross);
      && Pinned(after, order, gross)
      && CreditToApply(after, order, gross) == CreditToApply(events, order, gross)
  {
    var after := AfterOne(events, later, order, gross);
    if after != events && Fold(events).Some? {
      var e := after[|events|];
      assert after == events + [e] && after[..|events|] == events;
      DebitOfAppend(events, e, order);
    }
  }

  lemma {:induction false} PinnedIsStable(events: seq<Event>, later: seq<Later>, order: nat, gross: Money)
    requires gross.cents >= 0 && Pinned(events, order, gross) && Others(later, order)
    ensures Pinned(After(events, later, order, gross), order, gross)
    ensures CreditToApply(After(events, later, order, gross), order, gross) == CreditToApply(events, order, gross)
  {
    if later != [] {
      var but := later[..|later| - 1];
      PinnedIsStable(events, but, order, gross);
      OneKeepsPin(After(events, but, order, gross), later[|later| - 1], order, gross);
    }
  }

  lemma {:induction false} FreshClaim(claims: seq<nat>) returns (claim: nat)
    ensures forall c :: c in claims ==> c < claim
  {
    if claims == [] {
      claim := 0;
    } else {
      var rest := FreshClaim(claims[1..]);
      claim := if claims[0] < rest then rest else claims[0] + 1;
      assert claims == [claims[0]] + claims[1..];
    }
  }

  lemma {:induction false} FreshOrder(orders: seq<(nat, int)>, order: nat) returns (other: nat)
    ensures other != order && Recorded(orders, other) == None
  {
    var bound := OrderBound(orders);
    other := bound + order + 1;
    NotRecorded(orders, bound, other);
  }

  lemma {:induction false} OrderBound(orders: seq<(nat, int)>) returns (bound: nat)
    ensures forall i :: 0 <= i < |orders| ==> orders[i].0 <= bound
  {
    if orders == [] {
      bound := 0;
    } else {
      var rest := OrderBound(orders[1..]);
      bound := if orders[0].0 < rest then rest else orders[0].0;
      assert forall i :: 0 < i < |orders| ==> orders[i] == orders[1..][i - 1];
    }
  }

  lemma {:induction false} NotRecorded(orders: seq<(nat, int)>, bound: nat, other: nat)
    requires (forall i :: 0 <= i < |orders| ==> orders[i].0 <= bound) && other > bound
    ensures Recorded(orders, other) == None
  {
    if orders != [] { NotRecorded(orders[1..], bound, other); }
  }

  /** Unpinned, the credit can still move: up by a grant, or down by another order's debit. */
  lemma UnpinnedMoves(events: seq<Event>, order: nat, gross: Money) returns (later: Later)
    requires gross.cents >= 0 && BooksOk(events) && !Pinned(events, order, gross)
    ensures later.OtherDebit? ==> later.order != order
    ensures CreditToApply(AfterOne(events, later, order, gross), order, gross) != CreditToApply(events, order, gross)
  {
    if Fold(events).None? {
      later := GrantMore(0, Money(1, gross.currency));
      assert (events + [Granted(0, Money(1, gross.currency))])[..|events|] == events;
    } else {
      var l := Fold(events).value;
      if l.balance < gross.cents {
        var claim := FreshClaim(l.claims);
        later := GrantMore(claim, Money(1, gross.currency));
        assert (events + [Granted(claim, Money(1, gross.currency))])[..|events|] == events;
      } else {
        var other := FreshOrder(l.orders, order);
        var e := Consumed(other, Money(l.balance, gross.currency));
        later := OtherDebit(other, e.amount);
        DebitOfAppend(events, e, order);
        assert (events + [e])[..|events|] == events;
      }
    }
  }

  /** Exactly when a retry at the same gross recomputes the same charge, whatever happens to the
      ledger in between. */
  lemma RetryStableIff(events: seq<Event>, order: nat, gross: Money)
    requires gross.cents >= 0 && BooksOk(events)
    ensures RetryStable(events, order, gross) <==> Pinned(events, order, gross)
  {
    if Pinned(events, order, gross) {
      forall later | Others(later, order)
        ensures CreditToApply(After(events, later, order, gross), order, gross) == CreditToApply(events, order, gross)
      {
        PinnedIsStable(events, later, order, gross);
      }
    } else {
      var later := UnpinnedMoves(events, order, gross);
      assert Others([later], order) && [later][..0] == [];
      assert After(events, [later], order, gross) == AfterOne(events, later, order, gross);
    }
  }

  // ---- what is charged and what is debited ------------------------------------------------------

  function Debited(events: seq<Event>, order: nat): int {
    if DebitOf(events, order).Some? then DebitOf(events, order).value else 0
  }

  /** What an attempt that applies `applied` charges, and what the ledger then says was debited. */
  function Settled(now: seq<Event>, order: nat, gross: Money, applied: int): int {
    gross.cents - applied + Debited(Spent(now, order, Money(applied, gross.currency)), order)
  }

  /** An attempt that goes through charges and debits the gross between them exactly when the order
      had not been debited by then, or by the amount this attempt applies. */
  lemma ChargeAndDebitIff(now: seq<Event>, order: nat, gross: Money, applied: int)
    requires 0 <= applied <= gross.cents && BooksOk(now)
    requires applied > 0 ==> !Decide(now, ConsumeCommand(order, Money(applied, gross.currency))).Insufficient?
    ensures Settled(now, order, gross, applied) == gross.cents
      <==> Debited(now, order) == applied || DebitOf(now, order).None?
  {
    var c := ConsumeCommand(order, Money(applied, gross.currency));
    if applied > 0 && Decide(now, c).Emit? {
      assert Fold(now).Some?;
      DebitOfAppend(now, Decide(now, c).event, order);
    }
  }

  /** Attempts at one order that do not overlap conserve the gross, exactly when it has not fallen
      below what an earlier attempt debited. */
  lemma SequentialAttemptsIff(read: seq<Event>, now: seq<Event>, order: nat, gross: Money)
    requires gross.cents >= 0 && BooksOk(read) && BooksOk(now)
    requires DebitOf(now, order) == DebitOf(read, order) && Debited(read, order) >= 0
    requires
      var applied := CreditToApply(read, order, gross);
      applied > 0 ==> !Decide(now, ConsumeCommand(order, Money(applied, gross.currency))).Insufficient?
    ensures
      var applied := CreditToApply(read, order, gross);
      Settled(now, order, gross, applied) == gross.cents
      <==> Debited(read, order) <= gross.cents
  {
    ChargeAndDebitIff(now, order, gross, CreditToApply(read, order, gross));
  }

  function Grants(first: int, more: int, currency: string): seq<Event> {
    Emitted(Emitted([], GrantCommand(0, Money(first, currency))), GrantCommand(1, Money(more, currency)))
  }

  lemma LedgerOf(first: int, more: int, currency: string)
    ensures
      var one := Emitted([], GrantCommand(0, Money(first, currency)));
      && Fold(one) == Some(Ledger(first, currency, [0], []))
      && Fold(Grants(first, more, currency)) == Some(Ledger(first + more, currency, [0, 1], []))
  {
    var g, h := Granted(0, Money(first, currency)), Granted(1, Money(more, currency));
    var one := [g];
    assert one[..0] == [];
    assert Fold(one) == Some(Ledger(first, currency, [0], []));
    assert Emitted([], GrantCommand(0, g.amount)) == one && Emitted(one, GrantCommand(1, h.amount)) == one + [h];
    var two := one + [h];
    assert two[..|two| - 1] == one && two[|two| - 1] == h;
    assert Fold(two) == Some(Ledger(first + more, currency, [0] + [1], []));
    assert [0] + [1] == [0, 1];
  }

  lemma SpentOnce(now: seq<Event>, order: nat, applied: Money)
    requires Fold(now).Some? && DebitOf(now, order).None? && 0 < applied.cents <= Balance(now)
    ensures
      var after := Spent(now, order, applied);
      && after == now + [Consumed(order, applied)] && DebitOf(after, order) == Some(applied.cents)
      && forall again: Money :: Spent(after, order, again) == after
  {
    DebitOfAppend(now, Consumed(order, applied), order);
  }

  /** Two attempts at one order that overlap, a grant between their reads: both go through, and the
      one whose debit is the replay misses the gross by that grant. Charge and debit fall short if
      the earlier reader debits first, and exceed it if the later one does. */
  lemma OverlapMisses(order: nat, gross: Money, first: int, more: int)
    requires 0 < first && 0 < more && first + more <= gross.cents
    ensures
      var one, two := Emitted([], GrantCommand(0, Money(first, gross.currency))), Grants(first, more, gross.currency);
      && CreditToApply(one, order, gross) == first && CreditToApply(two, order, gross) == first + more
      && var early, late := Spent(two, order, Money(first, gross.currency)), Spent(two, order, Money(first + more, gross.currency));
      && early == Meanwhile(two, [ConsumeCommand(order, Money(first, gross.currency))])
      && Decide(early, ConsumeCommand(order, Money(first + more, gross.currency))).Nothing?
      && Decide(late, ConsumeCommand(order, Money(first, gross.currency))).Nothing?
      && Settled(early, order, gross, first + more) == gross.cents - more
      && Settled(late, order, gross, first) == gross.cents + more
  {
    var two := Grants(first, more, gross.currency);
    LedgerOf(first, more, gross.currency);
    assert [ConsumeCommand(order, Money(first, gross.currency))][..0] == [];
    SpentOnce(two, order, Money(first, gross.currency));
    SpentOnce(two, order, Money(first + more, gross.currency));
  }

  /** A later attempt whose gross has fallen below the debit: it charges nothing, and what is left of
      the debit is in neither. */
  lemma FallenGrossMisses(order: nat, debited: Money, gross: Money)
    requires 0 <= gross.cents < debited.cents && gross.currency == debited.currency
    ensures
      var granted := Emitted([], GrantCommand(0, debited));
      && CreditToApply(granted, order, debited) == debited.cents
      && var after := Spent(granted, order, debited);
      && CreditToApply(after, order, gross) == gross.cents
      && Settled(after, order, gross, gross.cents) == debited.cents > gross.cents
  {
    LedgerOf(debited.cents, 0, debited.currency);
    SpentOnce(Emitted([], GrantCommand(0, debited)), order, debited);
  }

  // ---- the attempt ---------------------------------------------------------------------------

  /** The frozen checkout: the order's own value, whatever part of it the credit pays. */
  datatype Snapshot = Snapshot(order: nat, cart: CartId, items: seq<Item>, total: Money, breakdown: Breakdown)

  datatype PaymentIntentCreated = PaymentIntentCreated(amount: Money, checkout: Snapshot)

  datatype ProcessRun = ProcessRun(order: nat, intent: nat, awaitingResult: bool)

  datatype CheckoutError = Unpriced(rejection: Rejection) | Conflict | PaymentDeclined | InsufficientCredit | VersionConflict

  /** One currency; charge and credit make up the gross; the lines, the total and the breakdown say
      the same number. */
  ghost predicate FrozenCoherently(fact: PaymentIntentCreated, applied: int) {
    var c := fact.checkout;
    && fact.amount == Money(c.total.cents - applied, c.total.currency) && 0 <= applied <= c.total.cents
    && SumLines(c.items) == c.total.cents && Balanced(c.breakdown, c.total)
    && forall i :: 0 <= i < |c.items| ==> ItemCoherent(c.items[i], c.items[i].quantity, c.total.currency)
  }

  function Meanwhile(events: seq<Event>, commands: seq<Command>): seq<Event> {
    if commands == [] then events
    else Emitted(Meanwhile(events, commands[..|commands| - 1]), commands[|commands| - 1])
  }

  class PlaceOrderProcess {
    var ledger: seq<Event>
    var payments: map<nat, PaymentIntentCreated>
    var runs: map<CartId, ProcessRun>

    constructor ()
      ensures ledger == [] && payments == map[] && runs == map[]
    {
      ledger, payments, runs := [], map[], map[];
    }

    /** The price of the charge: the live catalog's, or with the quote guard open the fold's at the
        quote's coordinate; the live price must exist either way. */
    method Price(port: Port, quoted: Option<AsOf>, cart: CartId, restaurant: RestaurantId, lines: seq<CartLine>)
      returns (r: Result<PricedCart, Rejection>)
      ensures r == ChargedPrice(port, quoted, cart, restaurant, lines)
    {
      r := PriceCart(port, cart, restaurant, lines);
      if r.Err? { return; }
      if quoted.Some? {
        r := PriceCartAt(port, quoted.value, cart, restaurant, lines);
      }
    }

    /** From the single-flight check on. `meanwhile` are the handlers that commit on the customer's
        ledger while the gateway is asked, `raced` those that commit between the debit's load and its
        save; `intent` is what the gateway answers. */
    method PlaceOrder(
        port: Port, quoted: Option<AsOf>, cart: CartId, restaurant: RestaurantId, lines: seq<CartLine>, order: nat,
        intent: nat, declined: bool, meanwhile: seq<Command>, raced: seq<Command>)
      returns (r: Result<PaymentIntentCreated, CheckoutError>, ghost applied: int)
      requires
        var p := ChargedPrice(port, quoted, cart, restaurant, lines);
        p.Ok? ==> p.value.total.cents >= 0
      modifies this
      ensures r == Err(Conflict) <==> cart in old(runs) && old(runs)[cart].awaitingResult
      ensures r != Err(Conflict) ==>
                var p := ChargedPrice(port, quoted, cart, restaurant, lines);
                && (p.Err? <==> r.Err? && r.error.Unpriced?)
                && (p.Err? ==> r == Err(Unpriced(p.error)))
                && (p.Ok? ==> (r == Err(PaymentDeclined) <==> declined))
      ensures r.Err? && (r.error.Conflict? || r.error.Unpriced?) ==>
                ledger == old(ledger) && payments == old(payments) && runs == old(runs)
      ensures r.Ok? || (!r.error.Conflict? && !r.error.Unpriced?) ==>
                && ChargedPrice(port, quoted, cart, restaurant, lines).Ok?
                && var price := ChargedPrice(port, quoted, cart, restaurant, lines).value;
                && applied == CreditToApply(old(ledger), order, price.total)
                && (r.Ok? ==> IsFrozen(r.value, price, cart, order, applied))
                && IsSettled(old(ledger), ledger, meanwhile, raced, order, Money(applied, price.total.currency), r)
                && payments == (if r.Err? || intent in old(payments) then old(payments) else old(payments)[intent := r.value])
                && runs == (if r.Err? then old(runs) else old(runs)[cart := ProcessRun(order, intent, true)])
    {
      if cart in runs && runs[cart].awaitingResult { return Err(Conflict), 0; }
      var price := this.Price(port, quoted, cart, restaurant, lines);
      if price.Err? { return Err(Unpriced(price.error)), 0; }
      ChargedIsCoherent(port, quoted, cart, restaurant, lines);
      r, applied := this.Charge(price.value, cart, order, intent, declined, meanwhile, raced);
    }

    /** The credit read, the gateway, the debit, and the two facts. */
    method Charge(
        price: PricedCart, cart: CartId, order: nat, intent: nat, declined: bool, meanwhile: seq<Command>, raced: seq<Command>)
      returns (r: Result<PaymentIntentCreated, CheckoutError>, applied: int)
      requires price.total.cents >= 0
      requires SumLines(price.items) == price.total.cents && Balanced(price.breakdown, price.total)
      requires forall i :: 0 <= i < |price.items| ==> ItemCoherent(price.items[i], price.items[i].quantity, price.total.currency)
      modifies this
      ensures r.Err? ==> !r.error.Conflict? && !r.error.Unpriced?
      ensures r == Err(PaymentDeclined) <==> declined
      ensures applied == CreditToApply(old(ledger), order, price.total)
      ensures r.Ok? ==> IsFrozen(r.value, price, cart, order, applied)
      ensures IsSettled(old(ledger), ledger, meanwhile, raced, order, Money(applied, price.total.currency), r)
      ensures payments == (if r.Err? || intent in old(payments) then old(payments) else old(payments)[intent := r.value])
      ensures runs == (if r.Err? then old(runs) else old(runs)[cart := ProcessRun(order, intent, true)])
    {
      var gross := price.total;
      applied := CreditToApply(ledger, order, gross);
      ledger := Meanwhile(ledger, meanwhile);
      if declined { return Err(PaymentDeclined), applied; }
      if applied > 0 {
        var loaded := ledger;
        match Decide(loaded, ConsumeCommand(order, Money(applied, gross.currency)))
        case Insufficient => return Err(InsufficientCredit), applied;
        case Nothing => ledger := Meanwhile(ledger, raced);
        case Emit(e) =>
          MeanwhileExtends(loaded, raced);
          ledger := Meanwhile(ledger, raced);
          if |ledger| != |loaded| { return Err(VersionConflict), applied; }
          ledger := ledger + [e];
      }
      var fact := PaymentIntentCreated(
        Money(gross.cents - applied, gross.currency), Snapshot(order, cart, price.items, gross, price.breakdown));
      if intent !in payments { payments := payments[intent := fact]; }
      runs := runs[cart := ProcessRun(order, intent, true)];
      r := Ok(fact);
    }
  }

  lemma {:induction false} MeanwhileExtends(events: seq<Event>, commands: seq<Command>)
    ensures events <= Meanwhile(events, commands)
  {
    if commands != [] { MeanwhileExtends(events, commands[..|commands| - 1]); }
  }

  lemma {:induction false} MeanwhileKeepsDebit(events: seq<Event>, commands: seq<Command>, order: nat)
    requires DebitOf(events, order).Some?
    ensures DebitOf(Meanwhile(events, commands), order) == DebitOf(events, order)
  {
    if commands != [] {
      var but := Meanwhile(events, commands[..|commands| - 1]);
      MeanwhileKeepsDebit(events, commands[..|commands| - 1], order);
      var d := Decide(but, commands[|commands| - 1]);
      if d.Emit? { DebitOfAppend(but, d.event, order); }
    }
  }

  /** What the attempt left on the ledger. One that fails debits nothing; a debit that is written is
      written on the ledger it was decided on. */
  ghost predicate IsSettled<T>(
    before: seq<Event>, after: seq<Event>, meanwhile: seq<Command>, raced: seq<Command>, order: nat, applied: Money,
    r: Result<T, CheckoutError>)
  {
    var loaded := Meanwhile(before, meanwhile);
    var decision := Decide(loaded, ConsumeCommand(order, applied));
    match r
    case Ok(_) =>
      if applied.cents <= 0 then after == loaded
      else if decision.Nothing? then after == Meanwhile(loaded, raced)
      else decision.Emit? && Meanwhile(loaded, raced) == loaded && after == Spent(loaded, order, applied)
    case Err(InsufficientCredit) => applied.cents > 0 && decision.Insufficient? && after == loaded
    case Err(VersionConflict) =>
      applied.cents > 0 && decision.Emit? && after == Meanwhile(loaded, raced) && |after| > |loaded|
    case Err(_) => after == loaded
  }

  /** So the answer is decided: which of the four it is depends on the gateway, on the ledger the debit
      loads, and on whether anybody appended before it saved. */
  lemma AnswersIff<T>(
    before: seq<Event>, after: seq<Event>, meanwhile: seq<Command>, raced: seq<Command>, order: nat, applied: Money,
    declined: bool, r: Result<T, CheckoutError>)
    requires IsSettled(before, after, meanwhile, raced, order, applied, r) && (r == Err(PaymentDeclined) <==> declined)
    requires r.Err? ==> !r.error.Conflict? && !r.error.Unpriced?
    ensures
      var loaded := Meanwhile(before, meanwhile);
      var decision := Decide(loaded, ConsumeCommand(order, applied));
      var debits := !declined && applied.cents > 0;
      && (r == Err(InsufficientCredit) <==> debits && decision.Insufficient?)
      && (r == Err(VersionConflict) <==> debits && decision.Emit? && Meanwhile(loaded, raced) != loaded)
      && (r.Ok? <==> !declined && (debits ==> decision.Nothing? || (decision.Emit? && Meanwhile(loaded, raced) == loaded)))
  {
    MeanwhileExtends(Meanwhile(before, meanwhile), raced);
  }

  /** An attempt that went through has debited the order what a debit on the loaded ledger would. */
  lemma SettledIsSpent<T>(
    before: seq<Event>, after: seq<Event>, meanwhile: seq<Command>, raced: seq<Command>, order: nat, applied: Money,
    r: Result<T, CheckoutError>)
    requires IsSettled(before, after, meanwhile, raced, order, applied, r) && r.Ok?
    ensures DebitOf(after, order) == DebitOf(Spent(Meanwhile(before, meanwhile), order, applied), order)
  {
    var loaded := Meanwhile(before, meanwhile);
    if applied.cents > 0 && Decide(loaded, ConsumeCommand(order, applied)).Nothing? {
      MeanwhileKeepsDebit(loaded, raced, order);
    }
  }

  ghost predicate IsFrozen(fact: PaymentIntentCreated, price: PricedCart, cart: CartId, order: nat, applied: int) {
    && fact.checkout == Snapshot(order, cart, price.items, price.total, price.breakdown)
    && FrozenCoherently(fact, applied)
  }

  function ChargedPrice(port: Port, quoted: Option<AsOf>, cart: CartId, restaurant: RestaurantId, lines: seq<CartLine>): Result<PricedCart, Rejection> {
    match Priced(cart, lines, LiveQuotes(port, restaurant, lines))
    case Err(e) => Err(e)
    case Ok(live) =>
      match quoted
      case None => Ok(live)
      case Some(asOf) => Priced(cart, lines, QuotesAt(port, asOf, restaurant, lines))
  }

  /** In both positions of the quote guard. */
  lemma ChargedIsCoherent(port: Port, quoted: Option<AsOf>, cart: CartId, restaurant: RestaurantId, lines: seq<CartLine>)
    requires ChargedPrice(port, quoted, cart, restaurant, lines).Ok?
    ensures
      var p := ChargedPrice(port, quoted, cart, restaurant, lines).value;
      && SumLines(p.items) == p.total.cents && Balanced(p.breakdown, p.total)
      && forall i :: 0 <= i < |p.items| ==> ItemCoherent(p.items[i], p.items[i].quantity, p.total.currency)
  {
    match quoted
    case None => Coherent(cart, lines, LiveQuotes(port, restaurant, lines));
    case Some(asOf) => Coherent(cart, lines, QuotesAt(port, asOf, restaurant, lines));
  }
}
