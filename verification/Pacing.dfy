/** crates/actor_runtime/src/worker.rs, the pacing of a row that never delivers: how often it is
    tried, how far apart, and when it is given up. */
module Pacing {
  import opened Wrappers
  import opened Entries
  import opened Tables

  /** The head of the lane is still inside its back-off. */
  predicate Waits(row: MessageRow, now: int) {
    row.nextAttemptAt.Some? && row.nextAttemptAt.value > now
  }

  predicate Tried(messages: Messages, id: MessageId, now: int) {
    IsReceived(messages, id) && !Waits(messages[id], now)
  }

  /** What one pass by the only drainer does to a row whose every delivery fails. */
  function Visit(messages: Messages, id: MessageId, spacing: nat, cap: int, now: int): Messages {
    if !Tried(messages, id, now) then messages
    else
      var counted := CountAttempt(messages, id, spacing, now);
      if CapReached(CountedAttempts(messages, id), cap) then FlipPoisoned(counted, id) else counted
  }

  predicate GivenUp(messages: Messages, id: MessageId) {
    id in messages && messages[id].Poisoned()
  }

  /** Passes at the given instants, whatever woke them. */
  function Visits(messages: Messages, id: MessageId, spacing: nat, cap: int, times: seq<int>): Messages {
    if times == [] then messages
    else Visit(Visits(messages, id, spacing, cap, times[..|times| - 1]), id, spacing, cap, times[|times| - 1])
  }

  /** The instants at which the row was really tried. */
  function Attempts(messages: Messages, id: MessageId, spacing: nat, cap: int, times: seq<int>): seq<int> {
    if times == [] then []
    else
      var before := times[..|times| - 1];
      var last := times[|times| - 1];
      Attempts(messages, id, spacing, cap, before)
        + (if Tried(Visits(messages, id, spacing, cap, before), id, last) then [last] else [])
  }

  ghost predicate Ordered(times: seq<int>) {
    forall i, j :: 0 <= i < j < |times| ==> times[i] <= times[j]
  }

  /** A row no delivery of which has failed yet. */
  predicate Fresh(messages: Messages, id: MessageId) {
    IsReceived(messages, id) && messages[id].attempts == 0 && messages[id].nextAttemptAt == None
  }

  /** The wait after attempt `i` (counting from zero) was kept before attempt `i + 1`. */
  ghost predicate SpacedOut(made: seq<int>, spacing: nat) {
    forall i :: 0 <= i < |made| - 1 ==> made[i] + Backoff(spacing, i) <= made[i + 1]
  }

  function Stamp(made: seq<int>, spacing: nat): Option<int> {
    if made == [] || spacing == 0 then None else Some(made[|made| - 1] + Backoff(spacing, |made| - 1))
  }

  /** Where the attempts made so far have brought the row. */
  ghost predicate PoisonState(messages: Messages, id: MessageId, made: seq<int>, spacing: nat, cap: int) {
    && id in messages && messages[id].attempts == |made|
    && (cap > 0 ==> |made| <= cap)
    && (messages[id].Poisoned() <==> cap > 0 && |made| == cap)
    && (!messages[id].Poisoned() ==> messages[id].status == Received)
    && SpacedOut(made, spacing)
    && messages[id].nextAttemptAt == Stamp(made, spacing)
  }

  lemma OneMore(messages: Messages, id: MessageId, made: seq<int>, spacing: nat, cap: int, now: int)
    requires PoisonState(messages, id, made, spacing, cap) && (made != [] ==> made[|made| - 1] <= now)
    requires Tried(messages, id, now)
    ensures PoisonState(Visit(messages, id, spacing, cap, now), id, made + [now], spacing, cap)
  {
    var more, wait := made + [now], if made == [] then 0 else Backoff(spacing, |made| - 1);
    assert spacing == 0 ==> wait == 0;
    forall i | 0 <= i < |more| - 1 ensures more[i] + Backoff(spacing, i) <= more[i + 1] {
      assert i < |made| - 1 ==> made[i] + Backoff(spacing, i) <= made[i + 1];
    }
  }

  /** The poison bound: the row is FAILED after exactly `cap` attempts, with a cap of zero (or
      below) never, and no attempt came before the back-off of the one before it was over. */
  lemma {:induction false} PoisonBound(messages: Messages, id: MessageId, spacing: nat, cap: int, times: seq<int>)
    requires Fresh(messages, id) && Ordered(times)
    ensures
      var made := Attempts(messages, id, spacing, cap, times);
      && PoisonState(Visits(messages, id, spacing, cap, times), id, made, spacing, cap)
      && (made != [] ==> made[|made| - 1] in times)
  {
    if times != [] {
      var before, last := times[..|times| - 1], times[|times| - 1];
      PoisonBound(messages, id, spacing, cap, before);
      var made := Attempts(messages, id, spacing, cap, before);
      var reached := Visits(messages, id, spacing, cap, before);
      if Tried(reached, id, last) {
        OneMore(reached, id, made, spacing, cap, last);
      } else {
        assert Visits(messages, id, spacing, cap, times) == reached;
        assert made + [] == made;
      }
    }
  }

  /** The waits after the first `n` attempts together. */
  function WaitSum(spacing: nat, n: nat): nat {
    if n == 0 then 0 else WaitSum(spacing, n - 1) + Backoff(spacing, n - 1)
  }

  lemma {:induction false} WaitsAddUp(made: seq<int>, spacing: nat)
    requires made != [] && SpacedOut(made, spacing)
    ensures made[|made| - 1] - made[0] >= WaitSum(spacing, |made| - 1)
  {
    if |made| > 1 {
      var rest := made[..|made| - 1];
      WaitsAddUp(rest, spacing);
    }
  }

  /** How long an always-failing row lives: from its first attempt to the one that fails it, the
      waits between them and no more are guaranteed; the one stamped last is never waited out. */
  lemma TimeToPoison(messages: Messages, id: MessageId, spacing: nat, cap: nat, times: seq<int>)
    requires Fresh(messages, id) && Ordered(times) && cap > 0
    requires GivenUp(Visits(messages, id, spacing, cap, times), id)
    ensures
      var made := Attempts(messages, id, spacing, cap, times);
      && |made| == cap
      && made[cap - 1] - made[0] >= WaitSum(spacing, cap - 1)
      && (spacing > 0 ==> Visits(messages, id, spacing, cap, times)[id].nextAttemptAt == Some(made[cap - 1] + Backoff(spacing, cap - 1)))
  {
    PoisonBound(messages, id, spacing, cap, times);
    WaitsAddUp(Attempts(messages, id, spacing, cap, times), spacing);
  }

  /** The earliest instants the back-offs allow. */
  function Earliest(spacing: nat, n: nat): (times: seq<int>)
    ensures |times| == n
  {
    if n == 0 then [] else Earliest(spacing, n - 1) + [WaitSum(spacing, n - 1)]
  }

  lemma {:induction false} EarliestOrdered(spacing: nat, n: nat)
    ensures Ordered(Earliest(spacing, n))
    ensures forall i :: 0 <= i < n ==> Earliest(spacing, n)[i] <= WaitSum(spacing, n)
    ensures n > 0 ==> Earliest(spacing, n)[n - 1] == WaitSum(spacing, n - 1)
  {
    if n > 0 { EarliestOrdered(spacing, n - 1); }
  }

  lemma EarliestIsDue(messages: Messages, id: MessageId, spacing: nat, cap: nat, n: nat)
    requires PoisonState(messages, id, Earliest(spacing, n), spacing, cap) && n < cap
    ensures Tried(messages, id, WaitSum(spacing, n))
  {
    EarliestOrdered(spacing, n);
    if n > 0 {
      assert WaitSum(spacing, n) == WaitSum(spacing, n - 1) + Backoff(spacing, n - 1);
    }
  }

  /** The guaranteed time is also enough: passes at the earliest instants allowed fail the row. */
  lemma {:induction false} EarliestPasses(messages: Messages, id: MessageId, spacing: nat, cap: nat, n: nat)
    requires Fresh(messages, id) && cap > 0 && n <= cap
    ensures Attempts(messages, id, spacing, cap, Earliest(spacing, n)) == Earliest(spacing, n)
    ensures n == cap ==> GivenUp(Visits(messages, id, spacing, cap, Earliest(spacing, n)), id)
  {
    EarliestOrdered(spacing, n);
    if n > 0 {
      var before := Earliest(spacing, n - 1);
      assert Earliest(spacing, n)[..n - 1] == before;
      EarliestPasses(messages, id, spacing, cap, n - 1);
      EarliestOrdered(spacing, n - 1);
      PoisonBound(messages, id, spacing, cap, before);
      EarliestIsDue(Visits(messages, id, spacing, cap, before), id, spacing, cap, n - 1);
    }
    PoisonBound(messages, id, spacing, cap, Earliest(spacing, n));
  }

  lemma {:induction false} WaitSumDoubling(spacing: nat, n: nat)
    requires n <= 17
    ensures WaitSum(spacing, n) == spacing * (PowerOfTwo(n) - 1)
  {
    if n > 0 {
      WaitSumDoubling(spacing, n - 1);
      var p := PowerOfTwo(n - 1);
      assert PowerOfTwo(n) == 2 * p && Backoff(spacing, n - 1) == spacing * p;
      assert spacing * (p - 1) + spacing * p == spacing * (2 * p - 1);
    }
  }

  lemma {:induction false} WaitSumLinear(spacing: nat, turn: nat, n: nat)
    requires turn == 17 <= n
    ensures WaitSum(spacing, n) == WaitSum(spacing, turn) + (n - turn) * Backoff(spacing, turn - 1)
  {
    if n > turn {
      WaitSumLinear(spacing, turn, n - 1);
      var step := Backoff(spacing, turn - 1);
      assert Backoff(spacing, n - 1) == step;
      assert (n - turn) * step == (n - 1 - turn) * step + step;
    }
  }

  /** In closed form: doubling until the exponent's ceiling, linear beyond it. */
  lemma WaitSumClosed(spacing: nat, turn: nat, n: nat)
    requires turn == 17
    ensures n <= turn ==> WaitSum(spacing, n) == spacing * (PowerOfTwo(n) - 1)
    ensures n > turn ==>
              WaitSum(spacing, n) == spacing * (PowerOfTwo(turn) - 1) + (n - turn) * (spacing * PowerOfTwo(turn - 1))
  {
    if n <= turn {
      WaitSumDoubling(spacing, n);
    } else {
      WaitSumDoubling(spacing, turn);
      WaitSumLinear(spacing, turn, n);
    }
  }

  /** The shipped defaults: five attempts, ten seconds base. */
  lemma DefaultsWait150Seconds()
    ensures WaitSum(10, 4) == 150 && Backoff(10, 4) == 160
  {
    WaitSumDoubling(10, 4);
    assert PowerOfTwo(4) == 2 * PowerOfTwo(3) == 4 * PowerOfTwo(2) == 8 * PowerOfTwo(1) == 16;
  }
}
