/** crates/actor_runtime/src/lease.rs, the ownership census and the fair-share steal: the
    arithmetic that makes the rebalance converge instead of thrash. In a run of steals a census and
    the steal it decides are one step, and no lease runs out meanwhile. */
module Balance {
  import opened Wrappers
  import opened Tables

  function LanesOf(registry: Registry, actorType: string): set<LaneKey> {
    set k | k in registry && k.actorType == actorType
  }

  /** The lanes a worker holds with a live lease. */
  function Holding(registry: Registry, actorType: string, now: int, worker: WorkerId): set<LaneKey> {
    set k | k in registry && k.actorType == actorType && LiveOwned(registry[k], now)
      && registry[k].claimedBy == Some(worker)
  }

  function Owners(registry: Registry, actorType: string, now: int): set<WorkerId> {
    set k | k in registry && k.actorType == actorType && LiveOwned(registry[k], now)
      :: registry[k].claimedBy.value
  }

  datatype Census = Census(total: nat, mine: nat, liveOwners: nat, largestOther: Option<(WorkerId, nat)>)
  {
    /** `total / instances`, floored; a bidder without a lane counts itself. */
    function FairShare(): nat {
      var instances := liveOwners + if mine == 0 then 1 else 0;
      if instances == 0 then total else total / instances
    }

    /** The decision of the rebalance loop: below the floor, and someone is above it. */
    predicate Steals() {
      mine < FairShare() && largestOther.Some? && largestOther.value.1 > FairShare()
    }
  }

  /** `ORDER BY lanes DESC, claimed_by LIMIT 1` over the other live owners. */
  ghost predicate IsLargestOther(
    registry: Registry, actorType: string, now: int, worker: WorkerId, largest: Option<(WorkerId, nat)>)
  {
    var others := Owners(registry, actorType, now) - {worker};
    match largest
    case None => others == {}
    case Some((victim, lanes)) =>
      && victim in others
      && lanes == |Holding(registry, actorType, now, victim)|
      && forall u :: u in others ==>
           var n := |Holding(registry, actorType, now, u)|;
           n < lanes || (n == lanes && victim <= u)
  }

  ghost predicate IsCensus(registry: Registry, actorType: string, now: int, worker: WorkerId, c: Census) {
    && c.total == |LanesOf(registry, actorType)|
    && c.mine == |Holding(registry, actorType, now, worker)|
    && c.liveOwners == |Owners(registry, actorType, now)|
    && IsLargestOther(registry, actorType, now, worker, c.largestOther)
  }

  /** One census and the steal it decided: `key` is a live lane of the victim. */
  ghost predicate StealStep(
    registry: Registry, registry': Registry, actorType: string, now: int, worker: WorkerId, until: int,
    c: Census, key: LaneKey)
  {
    && IsCensus(registry, actorType, now, worker, c) && c.Steals()
    && key in Holding(registry, actorType, now, c.largestOther.value.0)
    && until > now
    && registry' == Take(registry, key, worker, until)
  }

  // ---- one step ------------------------------------------------------------------------------

  lemma StealMovesOneLane(registry: Registry, actorType: string, now: int, key: LaneKey, worker: WorkerId, until: int, victim: WorkerId)
    requires key in Holding(registry, actorType, now, victim) && victim != worker && until > now
    ensures
      var registry' := Take(registry, key, worker, until);
      && registry'.Keys == registry.Keys
      && Holding(registry', actorType, now, worker) == Holding(registry, actorType, now, worker) + {key}
      && Holding(registry', actorType, now, victim) == Holding(registry, actorType, now, victim) - {key}
      && (forall u :: u != worker && u != victim ==>
           Holding(registry', actorType, now, u) == Holding(registry, actorType, now, u))
      && key !in Holding(registry, actorType, now, worker)
  {
    var registry' := Take(registry, key, worker, until);
    forall u | u != worker && u != victim
      ensures Holding(registry', actorType, now, u) == Holding(registry, actorType, now, u)
    {
    }
  }

  // ---- sums over the participants ------------------------------------------------------------

  ghost predicate Distinct(ws: seq<WorkerId>) {
    forall i, j :: 0 <= i < j < |ws| ==> ws[i] != ws[j]
  }

  function Sum(registry: Registry, actorType: string, now: int, ws: seq<WorkerId>): nat {
    if ws == [] then 0
    else |Holding(registry, actorType, now, ws[0])| + Sum(registry, actorType, now, ws[1..])
  }

  function SumOfSquares(registry: Registry, actorType: string, now: int, ws: seq<WorkerId>): nat {
    if ws == [] then 0
    else
      var n := |Holding(registry, actorType, now, ws[0])|;
      n * n + SumOfSquares(registry, actorType, now, ws[1..])
  }

  /** Every lane is live-owned by a participant. */
  ghost predicate AllHeld(registry: Registry, actorType: string, now: int, ws: seq<WorkerId>) {
    forall k :: k in registry && k.actorType == actorType ==>
      LiveOwned(registry[k], now) && registry[k].claimedBy.value in ws
  }

  function HeldBy(registry: Registry, actorType: string, now: int, ws: seq<WorkerId>): set<LaneKey> {
    set k | k in registry && k.actorType == actorType && LiveOwned(registry[k], now)
      && registry[k].claimedBy.value in ws
  }

  lemma {:induction false} SumIsHeld(registry: Registry, actorType: string, now: int, ws: seq<WorkerId>)
    requires Distinct(ws)
    ensures Sum(registry, actorType, now, ws) == |HeldBy(registry, actorType, now, ws)|
  {
    if ws == [] {
      assert HeldBy(registry, actorType, now, ws) == {};
    } else {
      SumIsHeld(registry, actorType, now, ws[1..]);
      var mine, rest := Holding(registry, actorType, now, ws[0]), HeldBy(registry, actorType, now, ws[1..]);
      assert HeldBy(registry, actorType, now, ws) == mine + rest;
      assert mine !! rest;
    }
  }

  /** Conservation: the participants' live counts always add up to the keyspace. */
  lemma SumIsTotal(registry: Registry, actorType: string, now: int, ws: seq<WorkerId>)
    requires Distinct(ws) && AllHeld(registry, actorType, now, ws)
    ensures Sum(registry, actorType, now, ws) == |LanesOf(registry, actorType)|
  {
    SumIsHeld(registry, actorType, now, ws);
    assert HeldBy(registry, actorType, now, ws) == LanesOf(registry, actorType);
  }

  /** What the two squares of thief and victim lose. */
  lemma {:induction false} SquaresAfter(
    registry: Registry, registry': Registry, actorType: string, now: int, ws: seq<WorkerId>,
    worker: WorkerId, victim: WorkerId, m: nat, n: nat)
    requires Distinct(ws) && worker != victim && n > 0
    requires |Holding(registry, actorType, now, worker)| == m && |Holding(registry', actorType, now, worker)| == m + 1
    requires |Holding(registry, actorType, now, victim)| == n && |Holding(registry', actorType, now, victim)| == n - 1
    requires forall u :: u != worker && u != victim ==>
      Holding(registry', actorType, now, u) == Holding(registry, actorType, now, u)
    ensures SumOfSquares(registry', actorType, now, ws) == SumOfSquares(registry, actorType, now, ws)
      + (if worker in ws then 2 * m + 1 else 0) - (if victim in ws then 2 * n - 1 else 0)
  {
    if ws != [] {
      SquaresAfter(registry, registry', actorType, now, ws[1..], worker, victim, m, n);
      assert (m + 1) * (m + 1) == m * m + 2 * m + 1;
      assert (n - 1) * (n - 1) == n * n - 2 * n + 1;
      assert forall u :: u in ws <==> u == ws[0] || u in ws[1..];
    }
  }

  /** One step conserves the lanes, leaves the victim at or above the thief's fair share, and
      lowers the sum of the squared counts by at least two. */
  lemma StealStepConverges(
    registry: Registry, registry': Registry, actorType: string, now: int, worker: WorkerId, until: int,
    c: Census, key: LaneKey, ws: seq<WorkerId>)
    requires StealStep(registry, registry', actorType, now, worker, until, c, key)
    requires Distinct(ws) && worker in ws && AllHeld(registry, actorType, now, ws)
    ensures AllHeld(registry', actorType, now, ws) && LanesOf(registry', actorType) == LanesOf(registry, actorType)
    ensures |Holding(registry', actorType, now, worker)| == c.mine + 1 <= c.FairShare()
    ensures |Holding(registry', actorType, now, c.largestOther.value.0)| >= c.FairShare()
    ensures SumOfSquares(registry', actorType, now, ws) + 2 <= SumOfSquares(registry, actorType, now, ws)
  {
    var (victim, n) := c.largestOther.value;
    StealMovesOneLane(registry, actorType, now, key, worker, until, victim);
    SquaresAfter(registry, registry', actorType, now, ws, worker, victim, c.mine, n);
  }

  /** The stealing statement may run some time after its census. It then still conserves the lanes,
      and keeps what the census promised exactly where the victim, as it stands by then, is above the
      share, and holds two lanes more than the thief. */
  lemma StaleStealIff(
    found: Registry, actorType: string, now: int, worker: WorkerId, until: int, victim: WorkerId, key: LaneKey, ws: seq<WorkerId>,
    fair: nat)
    requires victim != worker && key in Holding(found, actorType, now, victim) && until > now
    requires Distinct(ws) && worker in ws && AllHeld(found, actorType, now, ws)
    ensures
      var after := Take(found, key, worker, until);
      && AllHeld(after, actorType, now, ws) && LanesOf(after, actorType) == LanesOf(found, actorType)
      && (|Holding(after, actorType, now, victim)| >= fair <==> |Holding(found, actorType, now, victim)| > fair)
      && (SumOfSquares(after, actorType, now, ws) + 2 <= SumOfSquares(found, actorType, now, ws)
          <==> |Holding(found, actorType, now, victim)| >= |Holding(found, actorType, now, worker)| + 2)
  {
    StealMovesOneLane(found, actorType, now, key, worker, until, victim);
    SquaresAfter(found, Take(found, key, worker, until), actorType, now, ws, worker, victim,
                 |Holding(found, actorType, now, worker)|, |Holding(found, actorType, now, victim)|);
  }

  // ---- convergence ---------------------------------------------------------------------------

  ghost predicate SomeSteal(registry: Registry, registry': Registry, actorType: string, now: int, ws: seq<WorkerId>) {
    exists worker, until, c, key ::
      worker in ws && StealStep(registry, registry', actorType, now, worker, until, c, key)
  }

  /** Successive registries, each one steal after the one before. */
  ghost predicate StealRun(registries: seq<Registry>, actorType: string, now: int, ws: seq<WorkerId>) {
    forall i :: 0 <= i < |registries| - 1 ==> SomeSteal(registries[i], registries[i + 1], actorType, now, ws)
  }

  /** However the participants take turns, the stealing stops: twice the number of steals never
      exceeds the sum of squares it started from. */
  lemma {:induction false} StealRunsTerminate(registries: seq<Registry>, actorType: string, now: int, ws: seq<WorkerId>)
    requires registries != [] && Distinct(ws) && AllHeld(registries[0], actorType, now, ws)
    requires StealRun(registries, actorType, now, ws)
    ensures AllHeld(registries[|registries| - 1], actorType, now, ws)
    ensures LanesOf(registries[|registries| - 1], actorType) == LanesOf(registries[0], actorType)
    ensures 2 * (|registries| - 1) + SumOfSquares(registries[|registries| - 1], actorType, now, ws)
      <= SumOfSquares(registries[0], actorType, now, ws)
    decreases |registries|
  {
    if |registries| > 1 {
      var rest := registries[..|registries| - 1];
      var last := |rest| - 1;
      StealRunsTerminate(rest, actorType, now, ws);
      assert SomeSteal(registries[last], registries[last + 1], actorType, now, ws);
      var worker, until, c, key :|
        worker in ws && StealStep(registries[last], registries[last + 1], actorType, now, worker, until, c, key);
      StealStepConverges(registries[last], registries[last + 1], actorType, now, worker, until, c, key, ws);
    }
  }

  /** A census is determined by the registry, so one that says stop means nobody else's would not. */
  lemma CensusDecides(registry: Registry, actorType: string, now: int, worker: WorkerId, c: Census)
    requires IsCensus(registry, actorType, now, worker, c) && !c.Steals()
    ensures Quiescent(registry, actorType, now, [worker])
  {
    forall w, other | w in [worker] && IsCensus(registry, actorType, now, w, other) ensures !other.Steals() {
      if c.largestOther.Some? && other.largestOther.Some? {
        var others := Owners(registry, actorType, now) - {worker};
        assert c.largestOther.value.0 in others && other.largestOther.value.0 in others;
      }
      assert other == c;
    }
  }

  /** No participant's census tells it to steal. */
  ghost predicate Quiescent(registry: Registry, actorType: string, now: int, ws: seq<WorkerId>) {
    forall w, c :: w in ws && IsCensus(registry, actorType, now, w, c) ==> !c.Steals()
  }

  ghost predicate AtLeastFloor(registry: Registry, actorType: string, now: int, ws: seq<WorkerId>) {
    forall w :: w in ws ==> |LanesOf(registry, actorType)| / |ws| <= |Holding(registry, actorType, now, w)|
  }

  lemma LargestExists(registry: Registry, actorType: string, now: int, others: set<WorkerId>)
    returns (victim: WorkerId)
    requires others != {}
    ensures victim in others
    ensures forall u :: u in others ==>
      var n := |Holding(registry, actorType, now, u)|;
      var lanes := |Holding(registry, actorType, now, victim)|;
      n < lanes || (n == lanes && victim <= u)
  {
    victim :| victim in others;
    if others != {victim} {
      var rest := LargestExists(registry, actorType, now, others - {victim});
      var n, lanes := |Holding(registry, actorType, now, rest)|, |Holding(registry, actorType, now, victim)|;
      if n > lanes || (n == lanes && rest <= victim) {
        victim := rest;
      }
    }
  }

  lemma CensusExists(registry: Registry, actorType: string, now: int, worker: WorkerId) returns (c: Census)
    ensures IsCensus(registry, actorType, now, worker, c)
  {
    var others := Owners(registry, actorType, now) - {worker};
    var largest: Option<(WorkerId, nat)> := None;
    if others != {} {
      var victim := LargestExists(registry, actorType, now, others);
      largest := Some((victim, |Holding(registry, actorType, now, victim)|));
    }
    c := Census(|LanesOf(registry, actorType)|, |Holding(registry, actorType, now, worker)|,
                |Owners(registry, actorType, now)|, largest);
  }

  /** Participants holding at least one lane. */
  function Live(registry: Registry, actorType: string, now: int, ws: seq<WorkerId>): nat {
    if ws == [] then 0
    else (if |Holding(registry, actorType, now, ws[0])| > 0 then 1 else 0) + Live(registry, actorType, now, ws[1..])
  }

  function LiveSet(registry: Registry, actorType: string, now: int, ws: seq<WorkerId>): set<WorkerId> {
    set u | u in ws && |Holding(registry, actorType, now, u)| > 0
  }

  lemma {:induction false} LiveCounts(registry: Registry, actorType: string, now: int, ws: seq<WorkerId>)
    requires Distinct(ws)
    ensures Live(registry, actorType, now, ws) == |LiveSet(registry, actorType, now, ws)|
  {
    var live := LiveSet(registry, actorType, now, ws);
    if ws == [] {
      assert live == {};
    } else {
      LiveCounts(registry, actorType, now, ws[1..]);
      var rest := LiveSet(registry, actorType, now, ws[1..]);
      assert ws[0] !in rest;
      if |Holding(registry, actorType, now, ws[0])| > 0 {
        assert live == rest + {ws[0]};
      } else {
        assert live == rest;
      }
    }
  }

  lemma LiveIsOwners(registry: Registry, actorType: string, now: int, ws: seq<WorkerId>)
    requires Distinct(ws) && AllHeld(registry, actorType, now, ws)
    ensures Live(registry, actorType, now, ws) == |Owners(registry, actorType, now)|
  {
    LiveCounts(registry, actorType, now, ws);
    forall u ensures u in Owners(registry, actorType, now) <==> u in LiveSet(registry, actorType, now, ws) {
      OwnerHolds(registry, actorType, now, u);
    }
    assert LiveSet(registry, actorType, now, ws) == Owners(registry, actorType, now);
  }

  lemma OwnerHolds(registry: Registry, actorType: string, now: int, u: WorkerId)
    ensures u in Owners(registry, actorType, now) <==> |Holding(registry, actorType, now, u)| > 0
  {
    var held := Holding(registry, actorType, now, u);
    if u in Owners(registry, actorType, now) {
      var k :| k in registry && k.actorType == actorType && LiveOwned(registry[k], now) && registry[k].claimedBy.value == u;
      assert k in held;
    }
    if held != {} {
      var k :| k in held;
      assert registry[k].claimedBy.value in Owners(registry, actorType, now);
    }
  }

  /** If nobody but `w` holds more than `fair`, the total is bounded by the live owners. */
  lemma {:induction false} SumBound(registry: Registry, actorType: string, now: int, ws: seq<WorkerId>, w: WorkerId, fair: nat)
    requires Distinct(ws)
    requires forall u :: u in ws && u != w ==> |Holding(registry, actorType, now, u)| <= fair
    ensures
      var m := |Holding(registry, actorType, now, w)|;
      Sum(registry, actorType, now, ws) <= fair * Live(registry, actorType, now, ws)
        + (if w in ws then m - (if m > 0 then fair else 0) else 0)
  {
    if ws != [] {
      SumBound(registry, actorType, now, ws[1..], w, fair);
      assert forall u :: u in ws <==> u == ws[0] || u in ws[1..];
      var rest := Live(registry, actorType, now, ws[1..]);
      assert fair * (rest + 1) == fair * rest + fair;
    }
  }

  /** Everyone at or above `floor` leaves at most the rest for one. */
  lemma {:induction false} SumFloor(registry: Registry, actorType: string, now: int, ws: seq<WorkerId>, w: WorkerId, floor: nat)
    requires Distinct(ws) && w in ws
    requires forall u :: u in ws ==> floor <= |Holding(registry, actorType, now, u)|
    ensures |Holding(registry, actorType, now, w)| + (|ws| - 1) * floor <= Sum(registry, actorType, now, ws)
  {
    SumFloorAll(registry, actorType, now, ws[1..], floor);
    if ws[0] != w {
      SumFloor(registry, actorType, now, ws[1..], w, floor);
      assert (|ws| - 1) * floor == (|ws[1..]| - 1) * floor + floor;
    }
  }

  lemma {:induction false} SumFloorAll(registry: Registry, actorType: string, now: int, ws: seq<WorkerId>, floor: nat)
    requires forall u :: u in ws ==> floor <= |Holding(registry, actorType, now, u)|
    ensures |ws| * floor <= Sum(registry, actorType, now, ws)
  {
    if ws != [] {
      SumFloorAll(registry, actorType, now, ws[1..], floor);
      assert |ws| * floor == |ws[1..]| * floor + floor;
    }
  }

  /** A participant below its share finds somebody above it. */
  lemma BelowShareSteals(registry: Registry, actorType: string, now: int, ws: seq<WorkerId>, w: WorkerId, c: Census)
    requires Distinct(ws) && w in ws && AllHeld(registry, actorType, now, ws)
    requires IsCensus(registry, actorType, now, w, c) && c.mine < c.FairShare()
    ensures c.Steals()
  {
    LiveIsOwners(registry, actorType, now, ws);
    SumIsTotal(registry, actorType, now, ws);
    InstancesBound(registry, actorType, now, ws, w);
    var fair := c.FairShare();
    if !c.Steals() {
      forall u | u in ws && u != w ensures |Holding(registry, actorType, now, u)| <= fair {
        OwnerHolds(registry, actorType, now, u);
      }
      SumBound(registry, actorType, now, ws, w, fair);
      FairTimesOwners(c, fair);
    }
  }

  /** A participant below the floor is told to steal. */
  lemma BelowFloorSteals(registry: Registry, actorType: string, now: int, ws: seq<WorkerId>, w: WorkerId, c: Census)
    requires Distinct(ws) && w in ws && AllHeld(registry, actorType, now, ws)
    requires IsCensus(registry, actorType, now, w, c)
    requires c.mine < c.total / |ws|
    ensures c.Steals()
  {
    InstancesBound(registry, actorType, now, ws, w);
    FloorAntitone(c.total, c.liveOwners + if c.mine == 0 then 1 else 0, |ws|);
    BelowShareSteals(registry, actorType, now, ws, w, c);
  }

  lemma FairTimesOwners(c: Census, fair: nat)
    requires fair == c.FairShare() && c.liveOwners + c.total > 0 && c.mine < fair
    ensures fair * c.liveOwners + c.mine - (if c.mine > 0 then fair else 0) < c.total
  {
    var instances := c.liveOwners + if c.mine == 0 then 1 else 0;
    if instances > 0 {
      assert fair * instances <= c.total;
      assert fair * instances == fair * c.liveOwners + fair * (if c.mine == 0 then 1 else 0);
    }
  }

  lemma FloorAntitone(total: nat, a: nat, b: nat)
    requires 0 < a <= b
    ensures total / b <= total / a
  {
    var q := total / b;
    assert q * a <= q * b <= total;
    QuotientAtLeast(total, a, q);
  }

  lemma QuotientAtLeast(total: nat, a: nat, q: nat)
    requires 0 < a && q * a <= total
    ensures q <= total / a
  {
    var p := total / a;
    assert total < (p + 1) * a;
    assert p + 1 <= q ==> (p + 1) * a <= q * a;
  }

  lemma InstancesBound(registry: Registry, actorType: string, now: int, ws: seq<WorkerId>, w: WorkerId)
    requires Distinct(ws) && w in ws && AllHeld(registry, actorType, now, ws)
    ensures
      var instances := |Owners(registry, actorType, now)| + if |Holding(registry, actorType, now, w)| == 0 then 1 else 0;
      0 < instances <= |ws|
  {
    LiveIsOwners(registry, actorType, now, ws);
    LiveBelow(registry, actorType, now, ws, w);
    OwnerHolds(registry, actorType, now, w);
  }

  lemma {:induction false} LiveBelow(registry: Registry, actorType: string, now: int, ws: seq<WorkerId>, w: WorkerId)
    ensures Live(registry, actorType, now, ws) <= |ws|
    ensures w in ws && |Holding(registry, actorType, now, w)| == 0 ==> Live(registry, actorType, now, ws) < |ws|
  {
    if ws != [] {
      LiveBelow(registry, actorType, now, ws[1..], w);
    }
  }

  /** Quiescence is fairness: with all lanes live-owned, nobody steals only if every one of the k
      participants holds at least floor(total / k), and then at most what that leaves. */
  lemma QuiescentIsFair(registry: Registry, actorType: string, now: int, ws: seq<WorkerId>)
    requires ws != [] && Distinct(ws) && AllHeld(registry, actorType, now, ws)
    requires Quiescent(registry, actorType, now, ws)
    ensures AtLeastFloor(registry, actorType, now, ws)
    ensures forall w :: w in ws ==>
      var total := |LanesOf(registry, actorType)|;
      |Holding(registry, actorType, now, w)| <= total - (|ws| - 1) * (total / |ws|)
  {
    var total := |LanesOf(registry, actorType)|;
    forall w | w in ws ensures total / |ws| <= |Holding(registry, actorType, now, w)| {
      if |Holding(registry, actorType, now, w)| < total / |ws| {
        var c := CensusExists(registry, actorType, now, w);
        BelowFloorSteals(registry, actorType, now, ws, w, c);
      }
    }
    SumIsTotal(registry, actorType, now, ws);
    forall w | w in ws ensures |Holding(registry, actorType, now, w)| <= total - (|ws| - 1) * (total / |ws|) {
      SumFloor(registry, actorType, now, ws, w, total / |ws|);
    }
  }

  /** The converse, once there are lanes for everyone: a spread at the floor is left alone. */
  lemma FairIsQuiescent(registry: Registry, actorType: string, now: int, ws: seq<WorkerId>)
    requires ws != [] && Distinct(ws) && AllHeld(registry, actorType, now, ws)
    requires |ws| <= |LanesOf(registry, actorType)| && AtLeastFloor(registry, actorType, now, ws)
    ensures Quiescent(registry, actorType, now, ws)
  {
    var total := |LanesOf(registry, actorType)|;
    assert total / |ws| >= 1;
    AllLive(registry, actorType, now, ws);
    LiveIsOwners(registry, actorType, now, ws);
    forall w, c | w in ws && IsCensus(registry, actorType, now, w, c) ensures !c.Steals() {
    }
  }

  /** Nobody holds more than one lane. */
  ghost predicate AtMostOne(registry: Registry, actorType: string, now: int, ws: seq<WorkerId>) {
    forall w :: w in ws ==> |Holding(registry, actorType, now, w)| <= 1
  }

  /** With more participants than lanes somebody holds none. */
  lemma SomebodyIdle(registry: Registry, actorType: string, now: int, ws: seq<WorkerId>) returns (idle: WorkerId)
    requires Distinct(ws) && AllHeld(registry, actorType, now, ws) && |ws| > |LanesOf(registry, actorType)|
    ensures idle in ws && Holding(registry, actorType, now, idle) == {}
  {
    SumIsTotal(registry, actorType, now, ws);
    if forall w :: w in ws ==> 1 <= |Holding(registry, actorType, now, w)| {
      SumFloorAll(registry, actorType, now, ws, 1);
      assert false;
    }
    idle :| idle in ws && |Holding(registry, actorType, now, idle)| < 1;
  }

  /** Somebody with two lanes leaves fewer live owners than lanes. */
  lemma {:induction false} TwoLeaveFewer(registry: Registry, actorType: string, now: int, ws: seq<WorkerId>, u: WorkerId)
    ensures Live(registry, actorType, now, ws) <= Sum(registry, actorType, now, ws)
    ensures u in ws && |Holding(registry, actorType, now, u)| > 1 ==>
              Live(registry, actorType, now, ws) < Sum(registry, actorType, now, ws)
  {
    if ws != [] { TwoLeaveFewer(registry, actorType, now, ws[1..], u); }
  }

  /** An idle participant is told to steal wherever somebody holds two. */
  lemma IdleSteals(registry: Registry, actorType: string, now: int, ws: seq<WorkerId>, idle: WorkerId, u: WorkerId)
    requires Distinct(ws) && AllHeld(registry, actorType, now, ws)
    requires idle in ws && Holding(registry, actorType, now, idle) == {}
    requires u in ws && |Holding(registry, actorType, now, u)| > 1
    ensures !Quiescent(registry, actorType, now, ws)
  {
    var c := CensusExists(registry, actorType, now, idle);
    LiveIsOwners(registry, actorType, now, ws);
    SumIsTotal(registry, actorType, now, ws);
    TwoLeaveFewer(registry, actorType, now, ws, u);
    QuotientAtLeast(c.total, c.liveOwners + 1, 1);
    BelowShareSteals(registry, actorType, now, ws, idle, c);
  }

  /** Exactly when nobody steals, however many participants there are: everyone holds the floor, or,
      where there are not lanes for everyone, nobody holds two. */
  lemma QuiescentIff(registry: Registry, actorType: string, now: int, ws: seq<WorkerId>)
    requires ws != [] && Distinct(ws) && AllHeld(registry, actorType, now, ws)
    ensures Quiescent(registry, actorType, now, ws)
      <==> if |ws| <= |LanesOf(registry, actorType)| then AtLeastFloor(registry, actorType, now, ws)
           else AtMostOne(registry, actorType, now, ws)
  {
    if |ws| <= |LanesOf(registry, actorType)| {
      if Quiescent(registry, actorType, now, ws) { QuiescentIsFair(registry, actorType, now, ws); }
      if AtLeastFloor(registry, actorType, now, ws) { FairIsQuiescent(registry, actorType, now, ws); }
    } else if AtMostOne(registry, actorType, now, ws) {
      forall w, c | w in ws && IsCensus(registry, actorType, now, w, c) ensures !c.Steals() {
        if c.largestOther.Some? {
          OwnerHolds(registry, actorType, now, c.largestOther.value.0);
          var k :| k in Holding(registry, actorType, now, c.largestOther.value.0);
          assert c.largestOther.value.0 in ws;
        }
      }
    } else {
      var u :| u in ws && |Holding(registry, actorType, now, u)| > 1;
      var idle := SomebodyIdle(registry, actorType, now, ws);
      IdleSteals(registry, actorType, now, ws, idle, u);
    }
  }

  lemma {:induction false} AllLive(registry: Registry, actorType: string, now: int, ws: seq<WorkerId>)
    requires forall w :: w in ws ==> |Holding(registry, actorType, now, w)| > 0
    ensures Live(registry, actorType, now, ws) == |ws|
  {
    if ws != [] {
      AllLive(registry, actorType, now, ws[1..]);
    }
  }
}
