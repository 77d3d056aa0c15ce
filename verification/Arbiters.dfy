/** Reserve before append (crates/application/src/commands.rs: register_rider,
    grant_restaurant_access, grant_restaurant_access_by_invitation, configure_restaurant_slug): two
    write-side tables decide who a credential or a label belongs to, before the fact that says so is
    appended. Handlers run interleaved and may die between any two of their statements. The UUIDv5
    of an invitation's membership (section 5.5 of RFC 9562) is kept as the invitation it hashes. */
module Arbiters {
  import opened Wrappers

  type Subject = nat
  type Label = string

  datatype PrincipalKind = Rider | Member

  /** What can be held: a login credential by one principal of each kind, a label by a restaurant. */
  datatype Key = Credential(kind: PrincipalKind, subject: Subject) | Address(slug: Label)

  datatype MembershipId = Minted(id: nat) | OfInvitation(invitation: nat)

  datatype StreamId = RiderStream(rider: nat) | MembershipStream(membership: MembershipId) | RestaurantStream(restaurant: nat)

  datatype Fact =
    | RiderRegistered(rider: nat, subject: Subject)
    | AccessGranted(membership: MembershipId, member: nat, subject: Subject)
    | SlugConfigured(restaurant: nat, slug: Label, previous: Option<Label>)

  /** Who a fact says holds what. */
  function KeyOf(f: Fact): Key {
    match f
    case RiderRegistered(_, subject) => Credential(Rider, subject)
    case AccessGranted(_, _, subject) => Credential(Member, subject)
    case SlugConfigured(_, slug, _) => Address(slug)
  }

  function HolderIn(f: Fact): nat {
    match f
    case RiderRegistered(rider, _) => rider
    case AccessGranted(_, member, _) => member
    case SlugConfigured(restaurant, _, _) => restaurant
  }

  datatype Command =
    | RegisterRider(rider: nat, subject: Subject)
    | GrantAccess(membership: MembershipId, member: nat, subject: Subject)
    | GrantByInvitation(invitation: nat, invited: nat, subject: Subject)
    | ConfigureSlug(restaurant: nat, slug: Label)

  function Target(c: Command): StreamId {
    match c
    case RegisterRider(rider, _) => RiderStream(rider)
    case GrantAccess(membership, _, _) => MembershipStream(membership)
    case GrantByInvitation(invitation, _, _) => MembershipStream(OfInvitation(invitation))
    case ConfigureSlug(restaurant, _) => RestaurantStream(restaurant)
  }

  function Wants(c: Command): Key {
    match c
    case RegisterRider(_, subject) => Credential(Rider, subject)
    case GrantAccess(_, _, subject) => Credential(Member, subject)
    case GrantByInvitation(_, _, subject) => Credential(Member, subject)
    case ConfigureSlug(_, slug) => Address(slug)
  }

  /** The claimant; an invitation's grant goes to whoever already holds the credential. */
  function Claimant(c: Command, reservations: map<Key, nat>): nat {
    match c
    case RegisterRider(rider, _) => rider
    case GrantAccess(_, member, _) => member
    case GrantByInvitation(_, invited, _) => if Wants(c) in reservations then reservations[Wants(c)] else invited
    case ConfigureSlug(restaurant, _) => restaurant
  }

  function FactOf(c: Command, holder: nat, previous: Option<Label>): Fact {
    match c
    case RegisterRider(_, subject) => RiderRegistered(holder, subject)
    case GrantAccess(membership, _, subject) => AccessGranted(membership, holder, subject)
    case GrantByInvitation(invitation, _, subject) => AccessGranted(OfInvitation(invitation), holder, subject)
    case ConfigureSlug(_, slug) => SlugConfigured(holder, slug, previous)
  }

  /** `reserve`: whoever inserts first holds the key; a replay by the holder is no conflict. */
  function Reserving(held: map<Key, nat>, key: Key, holder: nat): (map<Key, nat>, bool) {
    if key in held then (held, held[key] == holder) else (held[key := holder], true)
  }

  /** A handler between two statements: what it loaded, and how far it is. */
  datatype Phase = Loaded | Named(holder: nat) | Reserved(holder: nat) | Released(holder: nat)
  datatype Handler = Handler(command: Command, version: nat, current: Option<Label>, phase: Phase)

  datatype State = State(
    reservations: map<Key, nat>, released: set<Key>, streams: map<StreamId, seq<Fact>>, handlers: map<nat, Handler>)

  const Init := State(map[], {}, map[], map[])

  datatype Step = Load(h: nat, command: Command) | Name(h: nat) | Reserve(h: nat) | Release(h: nat) | Append(h: nat) | Die(h: nat)

  function Stream(s: State, id: StreamId): seq<Fact> {
    if id in s.streams then s.streams[id] else []
  }

  function CurrentLabel(facts: seq<Fact>): Option<Label> {
    if facts == [] || !facts[|facts| - 1].SlugConfigured? then None else Some(facts[|facts| - 1].slug)
  }

  /** Nothing to do: the aggregate was born already, or the label is already its address. */
  predicate Settled(c: Command, facts: seq<Fact>) {
    if c.ConfigureSlug? then CurrentLabel(facts) == Some(c.slug) else facts != []
  }

  predicate Enabled(reserveFirst: bool, s: State, step: Step) {
    match step
    case Load(h, c) => h !in s.handlers
    case Name(h) => h in s.handlers && s.handlers[h].phase.Loaded?
    case Reserve(h) => h in s.handlers && s.handlers[h].phase.Named?
    case Release(h) => h in s.handlers && s.handlers[h].phase.Reserved? && s.handlers[h].current.Some?
    case Append(h) =>
      && h in s.handlers
      && (if !reserveFirst then s.handlers[h].phase.Named?
          else s.handlers[h].phase.Released? || (s.handlers[h].phase.Reserved? && s.handlers[h].current.None?))
    case Die(h) => true
  }

  function Apply(reserveFirst: bool, s: State, step: Step): State
    requires Enabled(reserveFirst, s, step)
  {
    match step
    case Load(h, c) =>
      var facts := Stream(s, Target(c));
      if Settled(c, facts) then s
      else s.(handlers := s.handlers[h := Handler(c, |facts|, CurrentLabel(facts), Loaded)])
    case Name(h) =>
      var d := s.handlers[h];
      s.(handlers := s.handlers[h := d.(phase := Named(Claimant(d.command, s.reservations)))])
    case Reserve(h) =>
      var d := s.handlers[h];
      var (held, won) := Reserving(s.reservations, Wants(d.command), d.phase.holder);
      s.(reservations := held,
         handlers := if won then s.handlers[h := d.(phase := Reserved(d.phase.holder))] else s.handlers - {h})
    case Release(h) =>
      var d := s.handlers[h];
      s.(released := s.released + {Address(d.current.value)}, handlers := s.handlers[h := d.(phase := Released(d.phase.holder))])
    case Append(h) =>
      var d := s.handlers[h];
      var id := Target(d.command);
      var rest := s.(handlers := s.handlers - {h});
      if |Stream(s, id)| != d.version then rest
      else rest.(streams := s.streams[id := Stream(s, id) + [FactOf(d.command, d.phase.holder, d.current)]])
    case Die(h) => s.(handlers := s.handlers - {h})
  }

  ghost predicate Run(reserveFirst: bool, s: State, steps: seq<Step>, t: State)
    decreases |steps|
  {
    if steps == [] then s == t
    else Enabled(reserveFirst, s, steps[0]) && Run(reserveFirst, Apply(reserveFirst, s, steps[0]), steps[1..], t)
  }

  ghost predicate Recorded(s: State, id: StreamId, f: Fact) {
    id in s.streams && f in s.streams[id]
  }

  /** Facts that name one credential of one kind, or one label, name one holder. */
  ghost predicate OneHolder(s: State) {
    forall a, b, f, g :: Recorded(s, a, f) && Recorded(s, b, g) && KeyOf(f) == KeyOf(g) ==> HolderIn(f) == HolderIn(g)
  }

  // ---- the invariant -------------------------------------------------------------------------

  ghost predicate Backed(reservations: map<Key, nat>, f: Fact) {
    KeyOf(f) in reservations && reservations[KeyOf(f)] == HolderIn(f)
  }

  ghost predicate HandlerOk(reservations: map<Key, nat>, d: Handler) {
    && (d.phase.Reserved? || d.phase.Released? ==>
         Wants(d.command) in reservations && reservations[Wants(d.command)] == d.phase.holder)
    && (!d.phase.Loaded? && !d.command.GrantByInvitation? ==> d.phase.holder == Claimant(d.command, map[]))
    && (!d.command.ConfigureSlug? ==> d.version == 0)
  }

  /** A stream holds its own aggregate's facts, and only a restaurant's holds more than one. */
  ghost predicate StreamOk(id: StreamId, facts: seq<Fact>) {
    && (!id.RestaurantStream? ==> |facts| <= 1)
    && forall f :: f in facts ==>
         match f
         case RiderRegistered(rider, _) => id == RiderStream(rider)
         case AccessGranted(membership, _, _) => id == MembershipStream(membership)
         case SlugConfigured(restaurant, _, _) => id == RestaurantStream(restaurant)
  }

  ghost predicate Inv(s: State) {
    && (forall id, f :: Recorded(s, id, f) ==> Backed(s.reservations, f))
    && (forall id :: id in s.streams ==> StreamOk(id, s.streams[id]))
    && (forall h :: h in s.handlers ==> HandlerOk(s.reservations, s.handlers[h]))
  }

  /** Holdings are for good: no step, and no release, takes one away or hands it over. */
  ghost predicate Holds(before: map<Key, nat>, after: map<Key, nat>) {
    forall k :: k in before ==> k in after && after[k] == before[k]
  }

  lemma AppendKeeps(s: State, h: nat)
    requires Inv(s) && Enabled(true, s, Append(h))
    ensures Inv(Apply(true, s, Append(h)))
  {
    var d := s.handlers[h];
    assert HandlerOk(s.reservations, d);
    var id, t := Target(d.command), Apply(true, s, Append(h));
    var f := FactOf(d.command, d.phase.holder, d.current);
    assert KeyOf(f) == Wants(d.command) && HolderIn(f) == d.phase.holder;
    forall other, g | Recorded(t, other, g) ensures Backed(t.reservations, g) {
      assert g == f || Recorded(s, other, g);
    }
    forall other | other in t.streams ensures StreamOk(other, t.streams[other]) {
      assert other in s.streams ==> StreamOk(other, s.streams[other]);
      assert forall g :: g in t.streams[other] ==> g in Stream(s, other) || (other == id && g == f);
    }
    assert forall x :: x in t.handlers ==> x in s.handlers && t.handlers[x] == s.handlers[x];
  }

  lemma InvPreserved(s: State, step: Step)
    requires Inv(s) && Enabled(true, s, step)
    ensures Inv(Apply(true, s, step)) && Holds(s.reservations, Apply(true, s, step).reservations)
  {
    if step.Append? {
      AppendKeeps(s, step.h);
    } else {
      var t := Apply(true, s, step);
      assert t.streams == s.streams;
      forall id, f | Recorded(t, id, f) ensures Backed(t.reservations, f) {
        assert Recorded(s, id, f);
      }
      HandlersKeep(s, step);
    }
  }

  lemma HandlersKeep(s: State, step: Step)
    requires Inv(s) && Enabled(true, s, step) && !step.Append?
    ensures
      var t := Apply(true, s, step);
      forall h :: h in t.handlers ==> HandlerOk(t.reservations, t.handlers[h])
  {
    var t := Apply(true, s, step);
    forall h | h in t.handlers ensures HandlerOk(t.reservations, t.handlers[h]) {
      assert h in s.handlers ==> HandlerOk(s.reservations, s.handlers[h]);
    }
  }

  lemma {:induction false} RunKeeps(s: State, steps: seq<Step>, t: State)
    requires Inv(s) && Run(true, s, steps, t)
    ensures Inv(t) && Holds(s.reservations, t.reservations)
    decreases |steps|
  {
    if steps != [] {
      InvPreserved(s, steps[0]);
      RunKeeps(Apply(true, s, steps[0]), steps[1..], t);
    }
  }

  // ---- what it guarantees --------------------------------------------------------------------

  lemma InvOneHolder(s: State)
    requires Inv(s)
    ensures OneHolder(s)
  {
    forall a, b, f, g | Recorded(s, a, f) && Recorded(s, b, g) && KeyOf(f) == KeyOf(g) ensures HolderIn(f) == HolderIn(g) {
      assert Backed(s.reservations, f) && Backed(s.reservations, g);
    }
  }

  /** A label once reserved, released since or not, is never in a fact of another restaurant; and so
      for credentials. */
  lemma NeverReassigned(s: State, steps: seq<Step>, t: State, key: Key, id: StreamId, f: Fact)
    requires Inv(s) && Run(true, s, steps, t)
    requires key in s.reservations && Recorded(t, id, f) && KeyOf(f) == key
    ensures HolderIn(f) == s.reservations[key]
  {
    RunKeeps(s, steps, t);
    assert Backed(t.reservations, f);
  }

  /** One accepted invitation, one membership at most; one registration at most per rider. */
  lemma BornOnce(steps: seq<Step>, t: State, id: StreamId)
    requires Run(true, Init, steps, t) && id in t.streams && !id.RestaurantStream?
    ensures |t.streams[id]| <= 1
    ensures forall other, f :: Recorded(t, other, f) && f.AccessGranted? && id == MembershipStream(f.membership) ==> other == id
  {
    RunKeeps(Init, steps, t);
    assert StreamOk(id, t.streams[id]);
    forall other, f | Recorded(t, other, f) && f.AccessGranted? && id == MembershipStream(f.membership) ensures other == id {
      assert StreamOk(other, t.streams[other]);
    }
  }

  /** No two restaurants answer at one address. */
  lemma AddressesDistinct(steps: seq<Step>, t: State, a: nat, b: nat, slug: Label)
    requires Run(true, Init, steps, t)
    requires CurrentLabel(Stream(t, RestaurantStream(a))) == Some(slug) == CurrentLabel(Stream(t, RestaurantStream(b)))
    ensures a == b
  {
    RunKeeps(Init, steps, t);
    var fa, fb := Stream(t, RestaurantStream(a)), Stream(t, RestaurantStream(b));
    var f, g := fa[|fa| - 1], fb[|fb| - 1];
    assert Recorded(t, RestaurantStream(a), f) && Recorded(t, RestaurantStream(b), g);
    assert Backed(t.reservations, f) && Backed(t.reservations, g);
    assert StreamOk(RestaurantStream(a), fa) && StreamOk(RestaurantStream(b), fb);
  }

  lemma Then(reserveFirst: bool, s: State, step: Step, rest: seq<Step>, t: State)
    requires Enabled(reserveFirst, s, step) && Run(reserveFirst, Apply(reserveFirst, s, step), rest, t)
    ensures Run(reserveFirst, s, [step] + rest, t)
  {
    assert ([step] + rest)[1..] == rest;
  }

  /** A reservation left behind by a handler that died is no loss, whatever it was for: its claimant
      resubmits and the fact is recorded, and in no run is it ever recorded for anybody else. */
  lemma OrphanRedriven(s: State, h: nat, c: Command, holder: nat) returns (steps: seq<Step>, t: State)
    requires Inv(s) && h !in s.handlers && !Settled(c, Stream(s, Target(c)))
    requires Wants(c) in s.reservations && s.reservations[Wants(c)] == holder == Claimant(c, s.reservations)
    ensures Run(true, s, steps, t) && Recorded(t, Target(c), FactOf(c, holder, CurrentLabel(Stream(s, Target(c)))))
    ensures forall id, f, later, u :: Run(true, s, later, u) && Recorded(u, id, f) && KeyOf(f) == Wants(c) ==> HolderIn(f) == holder
  {
    var current := CurrentLabel(Stream(s, Target(c)));
    var s1 := Apply(true, s, Load(h, c));
    var s2 := Apply(true, s1, Name(h));
    var s3 := Apply(true, s2, Reserve(h));
    var s4 := if current.Some? then Apply(true, s3, Release(h)) else s3;
    t := Apply(true, s4, Append(h));
    steps := [Append(h)];
    Then(true, s4, Append(h), [], t);
    if current.Some? {
      Then(true, s3, Release(h), steps, t);
      steps := [Release(h)] + steps;
    }
    Then(true, s2, Reserve(h), steps, t);
    steps := [Reserve(h)] + steps;
    Then(true, s1, Name(h), steps, t);
    steps := [Name(h)] + steps;
    Then(true, s, Load(h, c), steps, t);
    steps := [Load(h, c)] + steps;
    forall id, f, later, u | Run(true, s, later, u) && Recorded(u, id, f) && KeyOf(f) == Wants(c) ensures HolderIn(f) == holder {
      NeverReassigned(s, later, u, KeyOf(f), id, f);
    }
  }

  /** Appending first: two riders on one credential. */
  lemma AppendFirst() returns (steps: seq<Step>, t: State)
    ensures Run(false, Init, steps, t) && !OneHolder(t)
  {
    var a, b := RegisterRider(1, 0), RegisterRider(2, 0);
    var s1 := Apply(false, Init, Load(0, a));
    var s2 := Apply(false, s1, Name(0));
    var s3 := Apply(false, s2, Append(0));
    var s4 := Apply(false, s3, Load(0, b));
    var s5 := Apply(false, s4, Name(0));
    t := Apply(false, s5, Append(0));
    assert Recorded(t, RiderStream(1), RiderRegistered(1, 0)) && Recorded(t, RiderStream(2), RiderRegistered(2, 0));
    assert KeyOf(RiderRegistered(1, 0)) == KeyOf(RiderRegistered(2, 0));
    steps := [Append(0)];
    Then(false, s5, Append(0), [], t);
    Then(false, s4, Name(0), steps, t);
    steps := [Name(0)] + steps;
    Then(false, s3, Load(0, b), steps, t);
    steps := [Load(0, b)] + steps;
    Then(false, s2, Append(0), steps, t);
    steps := [Append(0)] + steps;
    Then(false, s1, Name(0), steps, t);
    steps := [Name(0)] + steps;
    Then(false, Init, Load(0, a), steps, t);
    steps := [Load(0, a)] + steps;
  }

  ghost predicate AlwaysOneHolder(reserveFirst: bool) {
    forall steps, t :: Run(reserveFirst, Init, steps, t) ==> OneHolder(t)
  }

  /** The order is what makes it: in every interleaving, crashes included, one holder per credential
      and label, exactly if handlers reserve before they append. */
  lemma ReserveFirstIff(reserveFirst: bool)
    ensures AlwaysOneHolder(reserveFirst) <==> reserveFirst
  {
    if reserveFirst {
      forall steps, t | Run(true, Init, steps, t) ensures OneHolder(t) {
        RunKeeps(Init, steps, t);
        InvOneHolder(t);
      }
    } else {
      var steps, t := AppendFirst();
    }
  }

  /** The reservation table. */
  class Reservations {
    var held: map<Key, nat>
    var released: set<Key>

    constructor ()
      ensures held == map[] && released == {}
    {
      held, released := map[], {};
    }

    /** An insert that does nothing on conflict, then, if it lost, a look at who holds the key. */
    method Reserve(key: Key, holder: nat) returns (won: bool)
      modifies this`held
      ensures (held, won) == Reserving(old(held), key, holder)
      ensures won <==> key in held && held[key] == holder
      ensures Holds(old(held), held)
    {
      var inserted := key !in held;
      if inserted { held := held[key := holder]; }
      won := inserted || held[key] == holder;
    }

    method HolderOf(key: Key) returns (holder: Option<nat>)
      ensures holder == if key in held then Some(held[key]) else None
    {
      holder := if key in held then Some(held[key]) else None;
    }

    /** The row stays: a released key is as taken as before. */
    method Release(key: Key, holder: nat)
      modifies this`released
      ensures released == old(released) + if key in held && held[key] == holder then {key} else {}
    {
      if key in held && held[key] == holder { released := released + {key}; }
    }
  }
}
