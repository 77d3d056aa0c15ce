/** crates/actor_runtime/src/worker.rs, the production loop: two clocks and one wake signal.
    Passes, beats and deliveries take no time here; nudges, the shutdown channel and the push flag
    do whatever they like, whenever they like. */
module RunLoop {

  datatype Config = Config(heartbeat: nat, pushedPass: nat)
  {
    /** `full_pass_interval`. */
    function Interval(pushLive: bool): nat {
      if pushLive then pushedPass else heartbeat
    }

    function Longest(): nat {
      if heartbeat < pushedPass then pushedPass else heartbeat
    }

    function Shortest(): nat {
      if heartbeat < pushedPass then heartbeat else pushedPass
    }
  }

  /** What ends one sleep, `after` seconds into it unless the timer is earlier: a producer, a
      change of the shutdown value, or the shutdown sender going away. */
  datatype Cause = Timer | Nudge | Change | SenderGone

  /** One turn of the environment: the push flag as the turn's full pass reads it, the wake-up, and
      whether shutdown is set by then. */
  datatype Turn = Turn(pushLive: bool, after: nat, cause: Cause, stop: bool)

  /** Instants in order, each at most `gap` after the one before. */
  ghost predicate Paced(times: seq<int>, gap: nat) {
    forall i :: 0 <= i < |times| - 1 ==> times[i] <= times[i + 1] <= times[i] + gap
  }

  /** The clock runs from `start`, and at `now` it is not yet overdue. */
  ghost predicate Kept(times: seq<int>, gap: nat, start: int, now: int) {
    times != [] && times[0] == start && Paced(times, gap) && times[|times| - 1] <= now <= times[|times| - 1] + gap
  }

  /** And never less than `gap` after it. */
  ghost predicate Apart(times: seq<int>, gap: nat) {
    forall i :: 0 <= i < |times| - 1 ==> times[i] + gap <= times[i + 1]
  }

  lemma KeptNext(times: seq<int>, gap: nat, start: int, now: int)
    requires Kept(times, gap, start, now)
    ensures Kept(times + [now], gap, start, now)
  {
    var next := times + [now];
    forall i | 0 <= i < |next| - 1 ensures next[i] <= next[i + 1] <= next[i] + gap {
      assert i < |times| - 1 ==> next[i + 1] == times[i + 1];
    }
  }

  /** Every full pass beats. */
  ghost predicate EachBeats(fulls: seq<int>, beats: seq<int>) {
    forall f :: f in fulls ==> f in beats
  }

  /** What was done when, and the two deadlines. */
  datatype Clocks = Clocks(fulls: seq<int>, beats: seq<int>, nextFull: int, nextBeat: int)
  {
    function Deadline(): int {
      if nextFull < nextBeat then nextFull else nextBeat
    }
  }

  /** The clocks as the loop finds them at its top; the first turn finds nothing done yet. */
  ghost predicate OnTime(config: Config, k: Clocks, start: int, now: int) {
    && start <= now <= k.nextFull && now <= k.nextBeat
    && EachBeats(k.fulls, k.beats)
    && if k.fulls == [] then k.beats == [] && now == k.nextFull == start else OnSchedule(config, k, start, now)
  }

  ghost predicate OnSchedule(config: Config, k: Clocks, start: int, now: int)
    requires k.fulls != []
  {
    && Kept(k.fulls, config.Longest(), start, now) && Apart(k.fulls, config.Shortest())
    && Kept(k.beats, config.heartbeat, start, now)
    && k.nextBeat == k.beats[|k.beats| - 1] + config.heartbeat
    && k.fulls[|k.fulls| - 1] + config.Shortest() <= k.nextFull <= k.fulls[|k.fulls| - 1] + config.Longest()
  }

  lemma StaysOnTime(config: Config, k: Clocks, start: int, now: int, later: int)
    requires OnTime(config, k, start, now) && k.fulls != [] && now <= later <= k.Deadline()
    ensures OnTime(config, k, start, later)
  {
  }

  /** The top half of a turn, on the clocks: a due pass, else a due beat, else nothing. */
  function Fired(config: Config, now: int, k: Clocks, pushLive: bool): Clocks {
    if now >= k.nextFull then Clocks(k.fulls + [now], k.beats + [now], now + config.Interval(pushLive), now + config.heartbeat)
    else if now >= k.nextBeat then k.(beats := k.beats + [now], nextBeat := now + config.heartbeat)
    else k
  }

  /** When the sleep ends. */
  function WakesAt(now: int, deadline: int, turn: Turn, senderGone: bool): int {
    if (turn.cause == Nudge || (turn.cause == Change && !senderGone)) && now + turn.after < deadline then now + turn.after
    else deadline
  }

  /** The loop between two turns. */
  datatype Loop = Loop(k: Clocks, now: int, senderGone: bool)

  function Turned(config: Config, l: Loop, turn: Turn): Loop {
    var k := Fired(config, l.now, l.k, turn.pushLive);
    Loop(k, WakesAt(l.now, k.Deadline(), turn, l.senderGone), l.senderGone || turn.cause == SenderGone)
  }

  /** The loop from `start` after these turns. */
  function Looped(config: Config, start: int, turns: seq<Turn>): Loop {
    if turns == [] then Loop(Clocks([], [], start, start + config.heartbeat), start, false)
    else
      Turned(config, Looped(config, start, turns[..|turns| - 1]), turns[|turns| - 1])
  }

  ghost predicate IsLooped(config: Config, start: int, turns: seq<Turn>, n: nat, l: Loop) {
    n <= |turns| && Looped(config, start, turns[..n]) == l
  }

  lemma LoopedNext(config: Config, start: int, turns: seq<Turn>, n: nat, l: Loop)
    requires n < |turns| && IsLooped(config, start, turns, n, l)
    ensures IsLooped(config, start, turns, n + 1, Turned(config, l, turns[n]))
  {
    assert turns[..n + 1][..n] == turns[..n];
  }

  /** The top half of a turn: at most one pass or beat, and only when due. */
  method Fire(config: Config, ghost start: int, now: int, k: Clocks, pushLive: bool) returns (k': Clocks)
    requires OnTime(config, k, start, now)
    ensures k'.fulls != [] && OnTime(config, k', start, now)
    ensures k'.fulls == if now == k.nextFull then k.fulls + [now] else k.fulls
    ensures k'.beats == if now == k.nextFull || now == k.nextBeat then k.beats + [now] else k.beats
    ensures k' == Fired(config, now, k, pushLive)
  {
    if k.fulls != [] {
      KeptNext(k.fulls, config.Longest(), start, now);
      KeptNext(k.beats, config.heartbeat, start, now);
    }
    if now >= k.nextFull {
      k' := Clocks(k.fulls + [now], k.beats + [now], now + config.Interval(pushLive), now + config.heartbeat);
    } else if now >= k.nextBeat {
      k' := k.(beats := k.beats + [now], nextBeat := now + config.heartbeat);
    } else {
      k' := k;
    }
  }

  /** The bottom half: sleep until the nearer clock unless woken first; only a nudge delivers, and
      it delivers at once. Noticing that the sender is gone does not cut the sleep short. */
  method Sleep(now: int, wake: int, turn: Turn, senderGone: bool) returns (woken: int, deliverNow: bool, gone: bool)
    requires now <= wake
    ensures now <= woken <= wake && woken == WakesAt(now, wake, turn, senderGone)
    ensures deliverNow <==> turn.cause == Nudge && now + turn.after < wake
    ensures deliverNow ==> woken == now + turn.after
    ensures woken < wake ==> turn.cause == Nudge || (turn.cause == Change && !senderGone)
    ensures gone <==> senderGone || turn.cause == SenderGone
  {
    woken, deliverNow, gone := wake, false, senderGone;
    match turn.cause
    case Timer =>
    case SenderGone => gone := true;
    case Nudge =>
      if now + turn.after < wake { woken, deliverNow := now + turn.after, true; }
    case Change =>
      if !senderGone && now + turn.after < wake { woken := now + turn.after; }
  }

  /** One sleep: when it began, when the timer would have ended it, when it ended. */
  datatype Nap = Nap(from: int, deadline: int, woken: int, delivers: bool)

  /** A nudge that comes before the timer ends the sleep there and then, and delivers unless
      shutdown is set; nothing else delivers. */
  ghost predicate Woken(nap: Nap, turn: Turn) {
    && nap.from <= nap.woken <= nap.deadline
    && (nap.delivers <==> turn.cause == Nudge && nap.from + turn.after < nap.deadline && !turn.stop)
    && (turn.cause == Nudge && nap.from + turn.after < nap.deadline ==> nap.woken == nap.from + turn.after)
    && (turn.cause == Timer || turn.cause == SenderGone ==> nap.woken == nap.deadline)
  }

  ghost predicate Follows(naps: seq<Nap>, i: nat, start: int)
    requires i < |naps|
  {
    naps[i].from == if i == 0 then start else naps[i - 1].woken
  }

  ghost predicate Naps(naps: seq<Nap>, turns: seq<Turn>, start: int, end: int) {
    && |naps| <= |turns|
    && (forall i :: 0 <= i < |naps| ==> Woken(naps[i], turns[i]))
    && (forall i :: 0 <= i < |naps| ==> Follows(naps, i, start))
    && end == if naps == [] then start else naps[|naps| - 1].woken
  }

  lemma NapNext(naps: seq<Nap>, turns: seq<Turn>, start: int, nap: Nap)
    requires |naps| < |turns| && Naps(naps, turns, start, nap.from) && Woken(nap, turns[|naps|])
    ensures Naps(naps + [nap], turns, start, nap.woken)
  {
    var all := naps + [nap];
    assert forall i :: 0 <= i < |naps| ==> all[i] == naps[i];
    forall i | 0 <= i < |all| ensures Woken(all[i], turns[i]) {
      assert i < |naps| ==> Woken(naps[i], turns[i]);
    }
    forall i | 0 <= i < |all| ensures Follows(all, i, start) {
      assert i < |naps| ==> Follows(naps, i, start);
    }
  }

  /** Of the first `n` turns only the last can have found shutdown set, and `stopped` says if it did. */
  ghost predicate StoppedAt(turns: seq<Turn>, n: nat, stopped: bool)
    requires n <= |turns|
  {
    && (forall i :: 0 <= i < n - 1 ==> !turns[i].stop)
    && stopped == (n > 0 && turns[n - 1].stop)
  }

  lemma StoppedNext(turns: seq<Turn>, n: nat)
    requires n < |turns| && StoppedAt(turns, n, false)
    ensures StoppedAt(turns, n + 1, turns[n].stop)
  {
  }

  /** One turn: fire what is due, then sleep. */
  method OneTurn(config: Config, ghost start: int, l: Loop, turn: Turn) returns (l': Loop, nap: Nap)
    requires OnTime(config, l.k, start, l.now)
    ensures l' == Turned(config, l, turn) && l'.k.fulls != [] && OnTime(config, l'.k, start, l'.now)
    ensures nap.from == l.now && nap.woken == l'.now && Woken(nap, turn)
  {
    var k := Fire(config, start, l.now, l.k, turn.pushLive);
    var woken, deliverNow, gone := Sleep(l.now, k.Deadline(), turn, l.senderGone);
    StaysOnTime(config, k, start, l.now, woken);
    l', nap := Loop(k, woken, gone), Nap(l.now, k.Deadline(), woken, deliverNow && !turn.stop);
  }

  /** `run`, for as many turns as the environment has: when it did full passes, when it beat, how it
      slept and delivered, and when it stopped. */
  method Run(config: Config, start: int, turns: seq<Turn>)
    returns (fulls: seq<int>, beats: seq<int>, naps: seq<Nap>, end: int, stopped: bool)
    requires turns != []
    ensures Kept(fulls, config.Longest(), start, end) && Apart(fulls, config.Shortest())
    ensures Kept(beats, config.heartbeat, start, end) && EachBeats(fulls, beats)
    ensures Naps(naps, turns, start, end)
    ensures naps != [] && StoppedAt(turns, |naps|, stopped) && (!stopped ==> |naps| == |turns|)
    ensures
      var l := Looped(config, start, turns[..|naps|]);
      fulls == l.k.fulls && beats == l.k.beats && end == l.now
  {
    var l := Loop(Clocks([], [], start, start + config.heartbeat), start, false);
    naps, stopped := [], false;
    while |naps| < |turns| && !stopped
      invariant naps != [] ==> l.k.fulls != []
      invariant OnTime(config, l.k, start, l.now)
      invariant Naps(naps, turns, start, l.now)
      invariant StoppedAt(turns, |naps|, stopped)
      invariant IsLooped(config, start, turns, |naps|, l)
      decreases |turns| - |naps|
    {
      var turn := turns[|naps|];
      LoopedNext(config, start, turns, |naps|, l);
      var nap;
      l, nap := OneTurn(config, start, l, turn);
      NapNext(naps, turns, start, nap);
      StoppedNext(turns, |naps|);
      naps, stopped := naps + [nap], turn.stop;
    }
    fulls, beats, end := l.k.fulls, l.k.beats, l.now;
  }

  /** The last lease stamp a lane has at `t`: its claim, or a beat since. */
  ghost predicate Stamped(beats: seq<int>, claimed: int, t: int, lease: int) {
    claimed <= t < claimed + lease || exists i :: 0 <= i < |beats| && claimed <= beats[i] <= t < beats[i] + lease
  }

  lemma {:induction false} LastBefore(beats: seq<int>, gap: nat, start: int, end: int, t: int) returns (i: nat)
    requires Kept(beats, gap, start, end) && start <= t <= end
    ensures i < |beats| && beats[i] <= t <= beats[i] + gap
    ensures forall j :: i < j < |beats| ==> t < beats[j]
  {
    i := |beats| - 1;
    while beats[i] > t
      invariant i < |beats| && (i + 1 < |beats| ==> t < beats[i + 1]) && t <= beats[i] + gap
      invariant forall j :: i < j < |beats| ==> t < beats[j]
      decreases i
    {
      assert i > 0;
      i := i - 1;
    }
  }

  /** With a heartbeat shorter than the lease, a lane claimed at any moment of the run is under an
      unexpired lease at every later moment of it, whatever the nudges and the push flag did. */
  lemma LeaseNeverLapses(config: Config, beats: seq<int>, start: int, end: int, claimed: int, t: int, lease: int)
    requires config.heartbeat < lease
    requires Kept(beats, config.heartbeat, start, end)
    requires start <= claimed <= t <= end
    ensures Stamped(beats, claimed, t, lease)
  {
    var i := LastBefore(beats, config.heartbeat, start, end, t);
    if beats[i] < claimed {
      assert t < claimed + lease;
    }
  }

  /** The bound on the lease is needed: with a heartbeat that is not shorter, a loop that nothing
      disturbs beats at its start, sleeps out its first interval, and has let the lease run out. */
  lemma LeaseLapses(config: Config, lease: nat)
    requires lease <= config.heartbeat
    ensures
      var l := Looped(config, 0, [Turn(false, 0, Timer, false)]);
      l.k.beats == [0] && lease <= l.now && !Stamped(l.k.beats, 0, lease, lease)
  {
    var turn := Turn(false, 0, Timer, false);
    assert [turn][..0] == [];
    assert Looped(config, 0, []) == Loop(Clocks([], [], 0, config.heartbeat), 0, false);
    assert Looped(config, 0, [turn]).k == Clocks([0], [0], config.heartbeat, config.heartbeat);
  }
}
