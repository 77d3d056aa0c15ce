/** The store-credit ledger of one customer: the fold of crates/domain/src/customer_credit.rs, the
    two handlers and the checkout read of crates/application/src/commands.rs, under any interleaving
    of loads and version-checked saves. Amounts are cents and taken to fit the source's 64 bits. */
module Credit {
  import opened Wrappers
  import opened Pricing

  datatype Event = Granted(claim: nat, amount: Money) | Consumed(order: nat, amount: Money)

  datatype Ledger = Ledger(balance: int, currency: string, claims: seq<nat>, orders: seq<(nat, int)>)

  /** `fold`: the first grant opens the ledger and fixes its currency; a debit before it is lost. */
  function Fold(events: seq<Event>): Option<Ledger> {
    if events == [] then None
    else
      match (Fold(events[..|events| - 1]), events[|events| - 1])
      case (None, Granted(claim, amount)) => Some(Ledger(amount.cents, amount.currency, [claim], []))
      case (Some(l), Granted(claim, amount)) => Some(l.(balance := l.balance + amount.cents, claims := l.claims + [claim]))
      case (None, Consumed(_, _)) => None
      case (Some(l), Consumed(order, amount)) => Some(l.(balance := l.balance - amount.cents, orders := l.orders + [(order, amount.cents)]))
  }

  function Balance(events: seq<Event>): int {
    var l := Fold(events);
    if l.Some? then l.value.balance else 0
  }

  function Recorded(orders: seq<(nat, int)>, order: nat): Option<int> {
    if orders == [] then None
    else if orders[0].0 == order then Some(orders[0].1)
    else Recorded(orders[1..], order)
  }

  /** `consumed_for`. */
  function DebitOf(events: seq<Event>, order: nat): Option<int> {
    var l := Fold(events);
    if l.Some? then Recorded(l.value.orders, order) else None
  }

  predicate AlreadyGranted(events: seq<Event>, claim: nat) {
    Fold(events).Some? && claim in Fold(events).value.claims
  }

  datatype Command = GrantCommand(claim: nat, amount: Money) | ConsumeCommand(order: nat, amount: Money)

  datatype Decision = Emit(event: Event) | Nothing | Insufficient

  /** What a handler decides on the events it loaded; both check their replay first. */
  function Decide(events: seq<Event>, c: Command): Decision {
    match c
    case GrantCommand(claim, amount) =>
      if AlreadyGranted(events, claim) then Nothing else Emit(Granted(claim, amount))
    case ConsumeCommand(order, amount) =>
      if DebitOf(events, order).Some? then Nothing
      else if amount.cents > Balance(events) then Insufficient
      else Emit(Consumed(order, amount))
  }

  function Clamp(x: int, high: int): int
    requires high >= 0
  {
    if x < 0 then 0 else if x > high then high else x
  }

  /** `credit_to_apply`: what was already debited for the order, else what there is. */
  function CreditToApply(events: seq<Event>, order: nat, gross: Money): (applied: int)
    requires gross.cents >= 0
    ensures 0 <= applied <= gross.cents
  {
    match Fold(events)
    case None => 0
    case Some(l) =>
      if Recorded(l.orders, order).Some? then Clamp(Recorded(l.orders, order).value, gross.cents)
      else if l.currency != gross.currency then 0
      else Clamp(l.balance, gross.cents)
  }

  // ---- the handlers as a protocol ---------------------------------------------------------------

  /** The stream, and what each handler in flight has loaded. */
  datatype State = State(events: seq<Event>, loaded: map<nat, (Command, seq<Event>)>)

  datatype Step = Load(handler: nat, command: Command) | Save(handler: nat) | Die(handler: nat)

  predicate Enabled(s: State, step: Step) {
    match step
    case Load(handler, _) => handler !in s.loaded
    case Save(handler) => handler in s.loaded
    case Die(_) => true
  }

  /** A save appends at the loaded version: it conflicts when the stream has moved on. */
  function Apply(s: State, step: Step): State
    requires Enabled(s, step)
  {
    match step
    case Load(handler, command) => s.(loaded := s.loaded[handler := (command, s.events)])
    case Die(handler) => s.(loaded := s.loaded - {handler})
    case Save(handler) =>
      var (command, snapshot) := s.loaded[handler];
      var rest := s.(loaded := s.loaded - {handler});
      if |snapshot| != |s.events| then rest
      else
        match Decide(snapshot, command)
        case Emit(event) => rest.(events := s.events + [event])
        case _ => rest
  }

  ghost predicate Run(s: State, steps: seq<Step>, t: State)
    decreases |steps|
  {
    if steps == [] then s == t
    else Enabled(s, steps[0]) && Run(Apply(s, steps[0]), steps[1..], t)
  }

  predicate NonNegative(c: Command) {
    c.amount.cents >= 0
  }

  ghost predicate AllNonNegative(steps: seq<Step>) {
    forall i :: 0 <= i < |steps| && steps[i].Load? ==> NonNegative(steps[i].command)
  }

  // ---- the ledger's books ------------------------------------------------------------------------

  function SumGranted(events: seq<Event>): int {
    if events == [] then 0
    else SumGranted(events[..|events| - 1]) + (if events[|events| - 1].Granted? then events[|events| - 1].amount.cents else 0)
  }

  function SumConsumed(events: seq<Event>): int {
    if events == [] then 0
    else SumConsumed(events[..|events| - 1]) + (if events[|events| - 1].Consumed? then events[|events| - 1].amount.cents else 0)
  }

  function CountDebits(events: seq<Event>, order: nat): nat {
    if events == [] then 0
    else
      var last := events[|events| - 1];
      CountDebits(events[..|events| - 1], order) + (if last.Consumed? && last.order == order then 1 else 0)
  }

  function CountGrants(events: seq<Event>, claim: nat): nat {
    if events == [] then 0
    else
      var last := events[|events| - 1];
      CountGrants(events[..|events| - 1], claim) + (if last.Granted? && last.claim == claim then 1 else 0)
  }

  /** Granted less consumed, never below zero. */
  ghost predicate BalanceOk(events: seq<Event>) {
    0 <= Balance(events) == SumGranted(events) - SumConsumed(events)
  }

  /** A claim granted once at most. */
  ghost predicate GrantsOk(events: seq<Event>) {
    forall claim :: CountGrants(events, claim) == if AlreadyGranted(events, claim) then 1 else 0
  }

  /** An order debited once at most, and the debit the ledger knows. */
  ghost predicate DebitsOk(events: seq<Event>) {
    forall order :: DebitOk(events, order)
  }

  ghost predicate DebitOk(events: seq<Event>, order: nat) {
    CountDebits(events, order) == if DebitOf(events, order).Some? then 1 else 0
  }

  ghost predicate BooksOk(events: seq<Event>) {
    BalanceOk(events) && GrantsOk(events) && DebitsOk(events)
  }

  /** Nothing was debited before the first grant opened the ledger. */
  predicate Opened(events: seq<Event>) {
    events == [] || events[0].Granted?
  }

  lemma {:induction false} RecordedAppend(orders: seq<(nat, int)>, entry: (nat, int), order: nat)
    ensures Recorded(orders + [entry], order)
      == if Recorded(orders, order).Some? then Recorded(orders, order) else if entry.0 == order then Some(entry.1) else None
  {
    if orders == [] {
      assert ([] + [entry])[1..] == [];
    } else {
      assert (orders + [entry])[1..] == orders[1..] + [entry];
      RecordedAppend(orders[1..], entry, order);
    }
  }

  lemma DebitOfAppend(events: seq<Event>, e: Event, order: nat)
    requires Fold(events).Some?
    ensures DebitOf(events + [e], order)
      == if DebitOf(events, order).Some? then DebitOf(events, order)
         else if e.Consumed? && e.order == order then Some(e.amount.cents) else None
  {
    assert (events + [e])[..|events|] == events;
    if e.Consumed? { RecordedAppend(Fold(events).value.orders, (e.order, e.amount.cents), order); }
  }

  lemma {:induction false} FoldOpened(events: seq<Event>)
    ensures Fold(events).None? <==> forall i :: 0 <= i < |events| ==> events[i].Consumed?
    ensures Opened(events) && events != [] ==> Fold(events).Some?
  {
    if events != [] {
      var but := events[..|events| - 1];
      FoldOpened(but);
      assert forall i :: 0 <= i < |but| ==> events[i] == but[i];
    }
  }

  /** Balance and grants are right whatever was emitted, and so are the debits on an opened ledger. */
  lemma EmitKeeps(events: seq<Event>, c: Command)
    requires BalanceOk(events) && GrantsOk(events) && NonNegative(c) && Decide(events, c).Emit?
    ensures
      var after := events + [Decide(events, c).event];
      && BalanceOk(after) && GrantsOk(after)
      && (DebitsOk(events) && (c.GrantCommand? || Fold(events).Some?) ==> DebitsOk(after))
  {
    var e := Decide(events, c).event;
    var after := events + [e];
    assert after[..|events|] == events;
    forall claim ensures CountGrants(after, claim) == if AlreadyGranted(after, claim) then 1 else 0 {
      assert CountGrants(events, claim) == if AlreadyGranted(events, claim) then 1 else 0;
    }
    if DebitsOk(events) && (c.GrantCommand? || Fold(events).Some?) {
      forall order ensures DebitOk(after, order) {
        assert DebitOk(events, order);
        if Fold(events).Some? { DebitOfAppend(events, e, order); }
      }
    }
  }

  /** One more fact keeps the books, exactly when it is a grant, or a debit of something, or a debit
      on a ledger that exists. */
  lemma EmitKeepsBooksIff(events: seq<Event>, c: Command)
    requires BooksOk(events) && NonNegative(c) && Decide(events, c).Emit?
    ensures BooksOk(events + [Decide(events, c).event]) <==> c.GrantCommand? || c.amount.cents > 0 || Fold(events).Some?
  {
    var after := events + [Decide(events, c).event];
    assert after[..|events|] == events;
    EmitKeeps(events, c);
    if c.ConsumeCommand? && Fold(events).None? {
      assert DebitOk(events, c.order);
      assert !DebitOk(after, c.order);
    }
  }

  /** The books as far as they can be trusted: the debits exactly on an opened ledger. */
  ghost predicate Booked(events: seq<Event>) {
    BalanceOk(events) && GrantsOk(events) && (Opened(events) ==> DebitsOk(events)) && (!Opened(events) ==> Forgotten(events, events[0].order))
  }

  /** A debit before the first grant, which the ledger never learns of. */
  ghost predicate Forgotten(events: seq<Event>, order: nat) {
    && CountDebits(events, order) > 0
    && (DebitOf(events, order).Some? ==> CountDebits(events, order) > 1)
  }

  lemma ForgottenForGood(events: seq<Event>, c: Command, order: nat)
    requires Forgotten(events, order) && Decide(events, c).Emit?
    ensures Forgotten(events + [Decide(events, c).event], order)
  {
    var e := Decide(events, c).event;
    var after := events + [e];
    assert after[..|events|] == events;
    if Fold(events).Some? { DebitOfAppend(events, e, order); }
  }

  lemma LoneDebit(e: Event)
    requires e.Consumed?
    ensures CountDebits([e], e.order) == 1 && DebitOf([e], e.order) == None
  {
    FoldOpened([e]);
    assert [e][..0] == [];
    assert CountDebits([e][..0], e.order) == 0;
  }

  lemma EmitBooked(events: seq<Event>, c: Command)
    requires Booked(events) && NonNegative(c) && Decide(events, c).Emit?
    ensures Booked(events + [Decide(events, c).event])
  {
    var e := Decide(events, c).event;
    var after := events + [e];
    assert after[..|events|] == events;
    EmitKeeps(events, c);
    FoldOpened(events);
    if events == [] {
      assert after == [e];
      if e.Consumed? { LoneDebit(e); }
    } else if !Opened(events) {
      ForgottenForGood(events, c, events[0].order);
    }
  }

  ghost predicate Inv(s: State) {
    && Booked(s.events)
    && forall h :: h in s.loaded ==> NonNegative(s.loaded[h].0) && s.loaded[h].1 <= s.events
  }

  lemma InvPreserved(s: State, step: Step)
    requires Inv(s) && Enabled(s, step) && (step.Load? ==> NonNegative(step.command))
    ensures Inv(Apply(s, step)) && s.events <= Apply(s, step).events
  {
    if step.Save? {
      var (command, snapshot) := s.loaded[step.handler];
      if |snapshot| == |s.events| && Decide(snapshot, command).Emit? {
        assert snapshot == s.events;
        EmitBooked(s.events, command);
      }
    }
  }

  lemma {:induction false} RunKeeps(s: State, steps: seq<Step>, t: State)
    requires Inv(s) && Run(s, steps, t) && AllNonNegative(steps)
    ensures Inv(t) && s.events <= t.events
    decreases |steps|
  {
    if steps != [] {
      InvPreserved(s, steps[0]);
      assert forall i :: 0 <= i < |steps[1..]| ==> steps[1..][i] == steps[i + 1];
      RunKeeps(Apply(s, steps[0]), steps[1..], t);
    }
  }

  const Init := State([], map[])

  /** The only fact that can stand first and not be a grant is a debit of nothing. */
  lemma {:induction false} FirstIsGrantOrNothing(s: State, steps: seq<Step>, t: State)
    requires Run(s, steps, t) && AllNonNegative(steps) && Inv(s)
    requires s.events != [] && s.events[0].Consumed? ==> s.events[0].amount.cents == 0
    ensures t.events != [] && t.events[0].Consumed? ==> t.events[0].amount.cents == 0
    decreases |steps|
  {
    if steps != [] {
      var m := Apply(s, steps[0]);
      InvPreserved(s, steps[0]);
      assert forall i :: 0 <= i < |steps[1..]| ==> steps[1..][i] == steps[i + 1];
      FirstIsGrantOrNothing(m, steps[1..], t);
    }
  }

  /** Over every run of grants, debits, replays and crashes of non-negative amounts, interleaved as
      they may be: the balance is what was granted less what was consumed and never negative, no
      claim is granted twice; and no order is debited twice or without the ledger's knowing, exactly
      when the first fact of the stream is a grant. The only other fact that can stand first, and so
      all that ever breaks the books, is a debit of nothing. */
  lemma BooksBalanceIff(steps: seq<Step>, t: State)
    requires Run(Init, steps, t) && AllNonNegative(steps)
    ensures BalanceOk(t.events) && GrantsOk(t.events)
    ensures BooksOk(t.events) <==> Opened(t.events)
    ensures !BooksOk(t.events) ==> t.events[0].Consumed? && t.events[0].amount.cents == 0
  {
    RunKeeps(Init, steps, t);
    FirstIsGrantOrNothing(Init, steps, t);
    if !Opened(t.events) {
      assert !DebitOk(t.events, t.events[0].order);
    }
  }

  ghost predicate DebitsSomething(steps: seq<Step>) {
    forall i :: 0 <= i < |steps| && steps[i].Load? && steps[i].command.ConsumeCommand? ==> steps[i].command.amount.cents > 0
  }

  lemma {:induction false} OpensWithGrant(s: State, steps: seq<Step>, t: State)
    requires Run(s, steps, t) && AllNonNegative(steps) && DebitsSomething(steps) && Inv(s) && Opened(s.events)
    requires forall h :: h in s.loaded && s.loaded[h].0.ConsumeCommand? ==> s.loaded[h].0.amount.cents > 0
    ensures Opened(t.events)
    decreases |steps|
  {
    if steps != [] {
      var m := Apply(s, steps[0]);
      InvPreserved(s, steps[0]);
      assert forall i :: 0 <= i < |steps[1..]| ==> steps[1..][i] == steps[i + 1];
      OpensWithGrant(m, steps[1..], t);
    }
  }

  /** In particular where, as at checkout, every debit is of a positive amount. */
  lemma BooksBalance(steps: seq<Step>, t: State)
    requires Run(Init, steps, t) && AllNonNegative(steps) && DebitsSomething(steps)
    ensures BooksOk(t.events)
  {
    OpensWithGrant(Init, steps, t);
    BooksBalanceIff(steps, t);
  }

  /** What breaks the books: a debit of nothing on a ledger that does not exist is
      recorded, not remembered, and recorded again. */
  lemma EmptyDebitRepeats(order: nat, currency: string)
    ensures
      var nothing := ConsumeCommand(order, Money(0, currency));
      var once := [Consumed(order, Money(0, currency))];
      && Decide([], nothing) == Emit(once[0])
      && Decide(once, nothing) == Emit(once[0])
      && CountDebits(once + once, order) == 2
  {
    var once := [Consumed(order, Money(0, currency))];
    assert once[..0] == [] && (once + once)[..1] == once;
    assert CountDebits(once, order) == 1;
  }
}
