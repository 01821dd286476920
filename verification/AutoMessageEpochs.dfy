/** While no request changes the configuration row, no slot is attempted twice. */
module AutoMessageEpochs {
  import opened Prelude
  import opened AutoMessageRows
  import opened AutoMessageService
  import opened AutoMessageScheduler
  import opened AutoMessageSafety

  /** The event is a request that changes the configuration row. */
  ghost predicate EditsConfig(w: World, e: Event)
    requires Allowed(w, e)
  {
    e.Edit? && Take(w.rows, e.step, e.now).1.config != w.rows.config
  }

  ghost predicate Unedited(w: World, events: seq<Event>)
    requires AllowedRun(w, events)
    decreases |events|
  {
    events == [] || (!EditsConfig(w, events[0]) && Unedited(Apply(w, events[0]), events[1..]))
  }

  /** The event finds a due configuration whose group is dissolved. */
  predicate FindsDissolved(w: World, e: Event) {
    && e.Begin? && !e.active && e.worker < |w.workers| && w.workers[e.worker].Locked?
    && w.rows.config.Some? && Due(w.rows.config.value, w.workers[e.worker].now)
  }

  /**
   A step logs at most one attempt, under the epoch it happens in, and only such a request begins another. Edits that
   change a row and dissolutions are counted one by one.
   */
  lemma {:induction false} StepCountsEpochs(w: World, e: Event)
    requires Allowed(w, e)
    ensures var next := Apply(w, e);
            && next.configEdits == w.configEdits + (if EditsConfig(w, e) then 1 else 0)
            && next.edits == w.edits + (if e.Edit? && next.rows != w.rows then 1 else 0)
            && next.dissolutions == w.dissolutions + (if FindsDissolved(w, e) then 1 else 0)
            && (next.attempts == w.attempts
                || (next.attempts == w.attempts + [Last(next.attempts)] && Last(next.attempts).epoch == w.configEdits))
  {
    hide Take, Possible, Rotation, Pending, BizIdOf, CandidateOf, Attempted, Dissolved, NothingToSend, Due;
  }

  lemma {:induction false} UneditedKeepsEpoch(w: World, events: seq<Event>)
    requires AllowedRun(w, events) && Unedited(w, events)
    ensures var end := Run(w, events);
            && end.configEdits == w.configEdits
            && w.attempts <= end.attempts
            && forall k :: |w.attempts| <= k < |end.attempts| ==> end.attempts[k].epoch == w.configEdits
    decreases |events|
  {
    hide Apply, Allowed, EditsConfig;
    if events != [] {
      var next := Apply(w, events[0]);
      StepCountsEpochs(w, events[0]);
      UneditedKeepsEpoch(next, events[1..]);
      var end := Run(next, events[1..]);
      assert w.attempts <= next.attempts <= end.attempts;
      forall k | |w.attempts| <= k < |end.attempts| ensures end.attempts[k].epoch == w.configEdits {
        if k < |next.attempts| {
          assert end.attempts[k] == next.attempts[k];
        }
      }
    }
  }

  /**
   Over any stretch of a run in which no request changes the configuration row, whatever else happens: two attempts
   have different slots, and are logged an interval or more apart.
   */
  lemma {:induction false} UneditedSlotsDiffer(
      rows: Rows, workers: nat, before: seq<Event>, events: seq<Event>, k: nat, l: nat)
    requires Kept(rows) && AllowedRun(Start(rows, workers), before)
    requires var w := Run(Start(rows, workers), before);
             && AllowedRun(w, events) && Unedited(w, events)
             && |w.attempts| <= k < l < |Run(w, events).attempts|
    ensures var attempts := Run(Run(Start(rows, workers), before), events).attempts;
            && attempts[k].slot < attempts[l].slot
            && attempts[k].sentAt + 60 * attempts[k].interval <= attempts[l].sentAt
  {
    hide AllowedRun, Run, Start, Unedited, Kept;
    var w := Run(Start(rows, workers), before);
    UneditedKeepsEpoch(w, events);
    RunAppend(Start(rows, workers), before, events);
    OneAttemptPerSlot(rows, workers, before + events, k, l);
  }
}
