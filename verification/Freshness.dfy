/** The freshness guard (crates/infrastructure/src/mailbox/activation.rs) over what streams hold and
    not only how long they are, with the deletion engine (crates/infrastructure/src/deletion.rs)
    erasing streams. Whatever process held the fold, it was loaded from the log at some time. */
module Freshness {
  import opened Wrappers
  import opened EventLog

  /** An append asserts a version that its writer loaded; the tombstone takes the next one; an erasure
      deletes every row of the stream, and its versions start again. */
  datatype Step = Append(staged: StagedAppend) | Tombstone(stream: string) | Erase(stream: string)

  predicate Enabled(store: Store, step: Step, erases: bool) {
    match step
    case Append(a) => a.expected <= Version(store, a.stream)
    case Tombstone(_) => true
    case Erase(_) => erases
  }

  function Apply(store: Store, step: Step): Store {
    match step
    case Append(a) => if Appended(store, a).Ok? then Appended(store, a).value else store
    case Tombstone(stream) => store[stream := At(store, stream) + [Technical]]
    case Erase(stream) => store - {stream}
  }

  ghost predicate Run(store: Store, steps: seq<Step>, after: Store, erases: bool)
    decreases |steps|
  {
    if steps == [] then store == after
    else Enabled(store, steps[0], erases) && Run(Apply(store, steps[0]), steps[1..], after, erases)
  }

  /** `guard_freshness_in_tx`: the stream's highest version is the one the held fold was loaded at. */
  predicate GuardPasses(store: Store, stream: string, served: nat) {
    Version(store, stream) == served
  }

  ghost predicate AllGapless(store: Store) {
    forall stream :: Gapless(At(store, stream))
  }

  /** Nothing that was there has changed. */
  ghost predicate Extends(before: Store, after: Store) {
    forall stream :: At(before, stream) <= At(after, stream)
  }

  lemma AppendExtends(store: Store, a: StagedAppend)
    requires AllGapless(store) && a.expected <= Version(store, a.stream) && Appended(store, a).Ok?
    ensures At(Appended(store, a).value, a.stream)
      == if a.events == [] then At(store, a.stream) else At(store, a.stream) + Recorded(a.events)
    ensures Gapless(At(Appended(store, a).value, a.stream))
  {
    var slots := At(store, a.stream);
    if a.events != [] {
      if a.expected < |slots| {
        AppendConflictsIff(slots, a.expected, a.events);
        assert Taken(slots, a.expected + 1);
      } else {
        AppendPastEnd(slots, a.expected, a.events);
        assert slots + Gaps(0) == slots;
      }
    }
  }

  lemma StepExtends(store: Store, step: Step)
    requires AllGapless(store) && Enabled(store, step, false)
    ensures AllGapless(Apply(store, step)) && Extends(store, Apply(store, step))
  {
    if step.Append? && Appended(store, step.staged).Ok? {
      AppendExtends(store, step.staged);
    }
    forall stream ensures Gapless(At(Apply(store, step), stream)) && At(store, stream) <= At(Apply(store, step), stream) {
      assert Gapless(At(store, stream));
    }
  }

  lemma {:induction false} RunExtends(store: Store, steps: seq<Step>, after: Store)
    requires AllGapless(store) && Run(store, steps, after, false)
    ensures Extends(store, after)
    decreases |steps|
  {
    if steps != [] {
      StepExtends(store, steps[0]);
      RunExtends(Apply(store, steps[0]), steps[1..], after);
      forall stream ensures At(store, stream) <= At(after, stream) {
        assert At(store, stream) <= At(Apply(store, steps[0]), stream) <= At(after, stream);
      }
    }
  }

  /** A stream erased and grown again to the version it had passes the guard, whatever it now holds:
      the delivery commits on a fold of what was erased. */
  lemma ErasedRegrown(store: Store, stream: string, events: seq<Event>) returns (steps: seq<Step>, after: Store)
    requires |events| == Version(store, stream) > 0
    ensures Run(store, steps, after, true)
    ensures GuardPasses(after, stream, Version(store, stream)) && At(after, stream) == Recorded(events)
  {
    var again := Append(StagedAppend(stream, 0, events));
    steps := [Erase(stream), again];
    var erased := Apply(store, Erase(stream));
    assert At(erased, stream) == [];
    AppendPastEnd([], 0, events);
    assert [] + Gaps(0) + Recorded(events) == Recorded(events);
    after := Apply(erased, again);
    assert steps[1..] == [again] && [again][1..] == [];
    assert Run(after, [], after, true);
    assert Run(erased, [again], after, true);
  }

  /** Passing the guard means that the fold is of what the stream holds. */
  ghost predicate GuardExact(erases: bool) {
    forall store, steps, after, stream :: AllGapless(store) && Run(store, steps, after, erases) ==>
      (GuardPasses(after, stream, Version(store, stream)) <==> At(after, stream) == At(store, stream))
  }

  /** Exactly where no stream is ever erased. */
  lemma GuardExactIff(erases: bool)
    ensures GuardExact(erases) <==> !erases
  {
    if erases {
      var before: Store := map["a" := [Business("old")]];
      var steps, after := ErasedRegrown(before, "a", ["new"]);
      assert AllGapless(before);
      assert At(after, "a") == Recorded(["new"]) && At(after, "a")[0] == Business("new");
      assert At(before, "a") == [Business("old")];
    } else {
      forall store, steps, after, stream | AllGapless(store) && Run(store, steps, after, erases)
        ensures GuardPasses(after, stream, Version(store, stream)) <==> At(after, stream) == At(store, stream)
      {
        RunExtends(store, steps, after);
        assert At(store, stream) <= At(after, stream);
      }
    }
  }
}
