/** A configuration that is switched off stays silent until it is switched on. */
module AutoMessageSilence {
  import opened Prelude
  import opened AutoMessageRows
  import opened AutoMessageService
  import opened AutoMessageEffects
  import opened AutoMessageScheduler
  import opened AutoMessageSafety

  predicate Off(rows: Rows) {
    rows.config.Some? ==> !rows.config.value.enabled
  }

  /** The requests that may switch a configuration on. */
  predicate SwitchesOn(step: Step) {
    step.Enable? || (step.SaveConfig? && step.params.enabled)
  }

  /** No other request does. */
  lemma {:induction false} OthersLeaveOff(rows: Rows, step: Step, now: int)
    requires Off(rows) && Possible(rows, step) && !SwitchesOn(step) && !step.Attempt?
    ensures Off(Take(rows, step, now).1)
  {
    hide SaveInputs, SortInputs, Rotation, ParamsError, InputError, Changes, Affects, ListItems, Live, DropUnseen;
  }

  /** While it is off nobody is in a transaction, and no step but one that switches it on sends or logs anything. */
  lemma {:induction false} StepStaysSilent(w: World, e: Event)
    requires RowLockHeld(w) && Off(w.rows) && Allowed(w, e) && !(e.Edit? && SwitchesOn(e.step))
    ensures var next := Apply(w, e);
            && Off(next.rows) && next.attempts == w.attempts && next.sends == w.sends
            && next.rows.logs == w.rows.logs
  {
    forall i | 0 <= i < |w.workers| ensures !w.workers[i].InTransaction() {
      assert w.workers[i].InTransaction() ==> Current(w, w.workers[i]);
    }
    if e.Edit? {
      OthersLeaveOff(w.rows, e.step, e.now);
      EditKeepsLog(w.rows, e.step, e.now);
    }
    hide Take, Possible, Rotation, Pending, BizIdOf, CandidateOf, RowLockHeld;
  }

  predicate NoneSwitchesOn(events: seq<Event>) {
    forall k :: 0 <= k < |events| && events[k].Edit? ==> !SwitchesOn(events[k].step)
  }

  lemma {:induction false} OffIsSilent(w: World, events: seq<Event>)
    requires RowLockHeld(w) && Off(w.rows) && AllowedRun(w, events) && NoneSwitchesOn(events)
    ensures var end := Run(w, events);
            Off(end.rows) && end.attempts == w.attempts && end.sends == w.sends && end.rows.logs == w.rows.logs
    decreases |events|
  {
    hide Apply, Allowed, RowLockHeld, Off, SwitchesOn;
    if events != [] {
      StepStaysSilent(w, events[0]);
      StepKeepsRowLock(w, events[0]);
      OffIsSilent(Apply(w, events[0]), events[1..]);
    }
  }

  /** A deactivation, or a save that does not enable, if it is carried out. */
  predicate SwitchesOff(rows: Rows, step: Step, now: int)
    requires Possible(rows, step)
  {
    (step.Disable? || (step.SaveConfig? && !step.params.enabled)) && Take(rows, step, now).0.Ok?
  }

  lemma {:induction false} SwitchedOffIsOff(rows: Rows, step: Step, now: int)
    requires Possible(rows, step) && SwitchesOff(rows, step, now)
    ensures Off(Take(rows, step, now).1)
  {
    match step {
      case Disable => DeactivationSwitchesOff(rows, now);
      case SaveConfig(params, ids) => SaveSwitches(rows, NormalizedParams(params), now, ids, now);
    }
    hide Saved, ParamsError, Disabled;
  }

  /**
   Over every run, with any number of workers: once a request has switched the configuration off, nothing is sent and
   nothing is logged until a request switches it on.
   */
  lemma {:induction false} SwitchedOffIsSilent(
      rows: Rows, workers: nat, before: seq<Event>, step: Step, now: int, events: seq<Event>)
    requires Kept(rows) && AllowedRun(Start(rows, workers), before)
    requires Allowed(Run(Start(rows, workers), before), Edit(step, now))
    requires SwitchesOff(Run(Start(rows, workers), before).rows, step, now)
    requires AllowedRun(Apply(Run(Start(rows, workers), before), Edit(step, now)), events) && NoneSwitchesOn(events)
    ensures var w := Run(Start(rows, workers), before);
            var end := Run(Apply(w, Edit(step, now)), events);
            && end.attempts == w.attempts && end.sends == w.sends
            && |end.rows.logs| == |rows.logs| + |w.attempts|
  {
    hide AllowedRun, Run, Start, Off, SwitchesOff, NoneSwitchesOn, SlotsHeld, LeasesHeld, DeliveriesHeld, SendsHeld,
         RowsKept;
    ReachableHolds(rows, workers, before);
    LogShowsAttempts(rows, workers, before);
    var w := Run(Start(rows, workers), before);
    SwitchedOffIsOff(w.rows, step, now);
    EditKeepsLog(w.rows, step, now);
    StepKeepsRowLock(w, Edit(step, now));
    hide RowLockHeld, Take, Possible, Pending;
    OffIsSilent(Apply(w, Edit(step, now)), events);
  }
}
