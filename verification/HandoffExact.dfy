/**
  Exactly when the hand-over can lose a row: never before the apply worker marks a table
  ready on an unstored `SyncDone`, and after that exactly if some row is not yet at the
  destination.
*/
module HandoffExact {
  import opened Wrappers
  import opened ApplyStream
  import opened Handoff
  import opened HandoffNoLoss
  import opened HandoffLoss

  /** The steps can be taken, and at their end a row is missing that will not be read again. */
  ghost predicate Loses(log: seq<Transaction>, st: State, steps: seq<Step>) {
    CanRun(log, st, steps) && Final(log, st, steps).stored != [] && !NothingLost(log, Final(log, st, steps))
  }

  /** The destination has every row of the log. */
  ghost predicate Complete(log: seq<Transaction>, dest: Destination) {
    forall row :: IsRow(log, row) ==> Covered(log, dest, row)
  }

  /** `Ready` is stored, perhaps under an error, and no worker is left that would copy again. */
  ghost predicate Settled(st: State) {
    && st.stored != []
    && (Current(st).Ready? || (Current(st).Errored? && |st.stored| >= 2 && st.stored[|st.stored| - 2].Ready?))
    && (st.worker.Some? ==>
          match st.worker.value.stage
          case StoreFailed => Current(st).Ready? && st.worker.value.phase.SyncDone?
          case Failed => Current(st).Errored? && st.worker.value.phase.Errored?
          case Spawned => Current(st).Ready? && st.worker.value.phase.Ready?
          case _ => false)
  }

  lemma SettledStep(log: seq<Transaction>, st: State, step: Step)
    requires Settled(st) && Complete(log, st.dest) && Enabled(log, st, step)
    ensures Settled(After(log, st, step)) && Complete(log, After(log, st, step).dest)
  {
    var st' := After(log, st, step);
    if step.ApplyWrite? {
      CoveredAfterWrite(log, st.dest, NextWrite(st.apply.value));
    } else {
      assert st'.dest == st.dest;
    }
  }

  lemma {:induction false} SettledRun(log: seq<Transaction>, st: State, steps: seq<Step>)
    requires Settled(st) && Complete(log, st.dest) && CanRun(log, st, steps)
    ensures Settled(Final(log, st, steps)) && Complete(log, Final(log, st, steps).dest)
    decreases |steps|
  {
    if steps != [] {
      SettledStep(log, st, steps[0]);
      SettledRun(log, After(log, st, steps[0]), steps[1..]);
    }
  }

  /** A marking step stores `Ready` and leaves the destination and the failed worker as they are. */
  lemma MarkedState(log: seq<Transaction>, st: State, step: Step)
    requires Inv(log, st) && Enabled(log, st, step) && MarksUnstored(st, step)
    ensures var st' := After(log, st, step);
      && Settled(st') && Current(st').Ready? && st'.dest == st.dest
      && st'.worker.Some? && st'.worker.value.stage.StoreFailed?
  {
  }

  /** After a marking step some continuation loses a row exactly if a row is not yet at the destination. */
  lemma MarkingLosesIff(log: seq<Transaction>, st: State, step: Step)
    requires ValidLog(log) && Inv(log, st) && Enabled(log, st, step) && MarksUnstored(st, step)
    ensures (exists steps :: Loses(log, After(log, st, step), steps)) <==>
            (exists row :: IsRow(log, row) && !Covered(log, st.dest, row))
  {
    var st' := After(log, st, step);
    MarkedState(log, st, step);
    if row :| IsRow(log, row) && !Covered(log, st.dest, row) {
      var steps := UnstoredReadyLoses(log, st', row);
      assert Loses(log, st', steps);
    } else {
      forall steps | CanRun(log, st', steps) ensures !Loses(log, st', steps) { SettledRun(log, st', steps); }
    }
  }

  /**
    Any run from a new table up to its first marking step, and that step: before it nothing
    is lost, a step that marks no unstored phase loses nothing either, and a step that does
    can be followed by a loss exactly if a row is not yet at the destination.
  */
  lemma LossExactly(log: seq<Transaction>, st: State, steps: seq<Step>, step: Step)
    requires ValidLog(log) && Initial(st)
    requires CanRun(log, st, steps) && MarksStoredOnly(log, st, steps) && Enabled(log, Final(log, st, steps), step)
    ensures var before := Final(log, st, steps);
      var after := After(log, before, step);
      && before.stored != [] && NothingLost(log, before)
      && (!MarksUnstored(before, step) ==> after.stored != [] && NothingLost(log, after))
      && (MarksUnstored(before, step) ==>
            ((exists more :: Loses(log, after, more)) <==> exists row :: IsRow(log, row) && !Covered(log, before.dest, row)))
  {
    var before := Final(log, st, steps);
    InitialInv(log, st);
    RunInv(log, st, steps);
    InvLosesNothing(log, before);
    if MarksUnstored(before, step) {
      MarkingLosesIff(log, before, step);
    } else {
      StepInv(log, before, step);
      InvLosesNothing(log, After(log, before, step));
    }
  }
}
