/**
 The distributed scheduler refines the store's own operation: what any number of workers do between edits is a
 sequence of whole attempts, so the rotation is theirs too.
 */
module AutoMessageRefinement {
  import opened Prelude
  import opened AutoMessageRows
  import opened AutoMessageListing
  import opened AutoMessageRotation
  import opened AutoMessageService
  import opened AutoMessageScheduler
  import opened AutoMessageSafety

  // ---------- One attempt ----------

  /** The rows once worker `i`, about to send, has sent with this result and committed. */
  ghost function Completed(w: World, i: nat, result: SendResult): Option<Rows> {
    if !Allowed(w, Send(i, true, result)) then None
    else
      var sent := Apply(w, Send(i, true, result));
      if Allowed(sent, Commit(i)) then Some(Apply(sent, Commit(i)).rows) else None
  }

  /** An attempt nothing interrupts leaves the rows the store's own operation leaves. */
  lemma {:induction false} UninterruptedAttemptIsProcessed(w: World, i: nat, active: bool,
        send: Candidate -> SendResult)
    requires RowLockHeld(w) && Allowed(w, Begin(i, active)) && w.rows.config.Some?
    ensures var begun := Apply(w, Begin(i, active));
            var processed := Processed(w.rows, active, w.workers[i].now, send);
            && (begun.rowLock == None ==> processed == Ok(begun.rows))
            && (begun.rowLock.Some? ==>
                  && CanSend(w.rows) && processed.Ok?
                  && Completed(begun, i, send(CandidateOf(w.rows))) == Some(processed.value))
  {
    hide Rotation, CandidateOf, BizIdOf, Pending;
  }

  // ---------- Runs without edits ----------

  /** Whatever a transaction is about to send is what the stored rows send next. */
  ghost predicate SendsNext(w: World) {
    forall i :: 0 <= i < |w.workers| && w.workers[i].InTransaction() ==>
      && CanSend(w.rows)
      && w.workers[i].candidate == CandidateOf(w.rows)
      && w.workers[i].length == |Rotation(w.rows)|
  }

  /** The call a step amounts to, if it logs an attempt. */
  function CallOf(w: World, e: Event): Call {
    if e.Begin? && e.worker < |w.workers| && w.workers[e.worker].Locked? then
      Call(e.active, w.workers[e.worker].now, SendResult(false, ""))
    else if e.Commit? && e.worker < |w.workers| && w.workers[e.worker].Answered? then
      Call(true, w.workers[e.worker].now, w.workers[e.worker].result)
    else Call(true, 0, SendResult(false, ""))
  }

  lemma {:induction false} BeginIsAttempt(w: World, i: nat, active: bool)
    requires SendsNext(w) && RowLockHeld(w) && Allowed(w, Begin(i, active))
    ensures var w' := Apply(w, Begin(i, active));
            && SendsNext(w')
            && w'.rows == (if w'.attempts == w.attempts then w.rows
                           else AttemptOnce(w.rows, CallOf(w, Begin(i, active))))
  {
    hide Rotation, CandidateOf, BizIdOf, Pending;
  }

  lemma {:induction false} CommitIsAttempt(w: World, i: nat)
    requires SendsNext(w) && RowLockHeld(w) && Allowed(w, Commit(i))
    ensures SendsNext(Apply(w, Commit(i)))
    ensures Apply(w, Commit(i)).rows == AttemptOnce(w.rows, CallOf(w, Commit(i)))
  {
    hide Rotation, CandidateOf, BizIdOf, Pending;
    assert Current(w, w.workers[i]);
  }

  lemma {:induction false} QuietStepSendsNext(w: World, e: Event)
    requires SendsNext(w) && Allowed(w, e) && !e.Edit? && !e.Begin? && !e.Commit?
    ensures SendsNext(Apply(w, e)) && Apply(w, e).rows == w.rows
  {
    hide Rotation, CandidateOf, BizIdOf, Pending, CanSend;
  }

  /** Every step but an edit leaves the rows alone or makes one whole attempt on them. */
  lemma {:induction false} StepIsAttempt(w: World, e: Event)
    requires SendsNext(w) && RowLockHeld(w) && Allowed(w, e) && !e.Edit?
    ensures SendsNext(Apply(w, e))
    ensures Apply(w, e).rows == w.rows || Apply(w, e).rows == AttemptOnce(w.rows, CallOf(w, e))
  {
    hide SendsNext, RowLockHeld, Allowed, Apply, AttemptOnce, CallOf;
    match e {
      case Begin(i, active) => BeginIsAttempt(w, i, active);
      case Commit(i) => CommitIsAttempt(w, i);
      case _ => QuietStepSendsNext(w, e);
    }
  }

  ghost predicate NoEdits(events: seq<Event>) {
    forall k :: 0 <= k < |events| ==> !events[k].Edit?
  }

  lemma {:induction false} AttemptsAppend(rows: Rows, call: Call, calls: seq<Call>)
    ensures Attempts(rows, [call] + calls) == Attempts(AttemptOnce(rows, call), calls)
    decreases |calls|
  {
    hide AttemptOnce;
    if calls == [] {
      assert [call] + calls == [call];
      assert Init([call]) == [];
    } else {
      assert Init([call] + calls) == [call] + Init(calls);
      AttemptsAppend(rows, call, Init(calls));
    }
  }

  /** The attempts a run without edits makes, in the order of their commits. */
  ghost function CallsOf(w: World, events: seq<Event>): seq<Call>
    requires AllowedRun(w, events)
    decreases |events|
  {
    if events == [] then []
    else
      var rest := CallsOf(Apply(w, events[0]), events[1..]);
      if Apply(w, events[0]).rows == w.rows then rest else [CallOf(w, events[0])] + rest
  }

  /** Refinement: without edits, any run of any number of workers leaves the rows that its attempts leave one by one. */
  lemma {:induction false} RunIsAttempts(w: World, events: seq<Event>)
    requires Invariant(w) && SendsNext(w) && AllowedRun(w, events) && NoEdits(events)
    ensures Run(w, events).rows == Attempts(w.rows, CallsOf(w, events))
    decreases |events|
  {
    hide Apply, Allowed, AttemptOnce, CallOf, SendsNext;
    hide RowLockHeld, RowsKept, SlotsHeld, LeasesHeld, DeliveriesHeld, SendsHeld;
    if events != [] {
      StepIsAttempt(w, events[0]);
      hide Invariant;
      OneStepHolds(w, events[0]);
      RunIsAttempts(Apply(w, events[0]), events[1..]);
      AttemptsAppend(w.rows, CallOf(w, events[0]), CallsOf(Apply(w, events[0]), events[1..]));
    }
  }

  /**
   So the rotation holds for any number of workers: from the first turn, what they successfully send between
   edits is the items of the rotation in order, round and round.
   */
  lemma {:induction false} WorkersFollowRotation(rows: Rows, workers: nat, events: seq<Event>)
    requires Kept(rows) && AllowedRun(Start(rows, workers), events) && NoEdits(events)
    requires rows.config.Some? && Rotation(rows) != [] && Turn(rows) == 0
    ensures var after := Run(Start(rows, workers), events).rows;
            var n := |SentIds(after.logs)| - |SentIds(rows.logs)|;
            n >= 0 && SentIds(after.logs) == SentIds(rows.logs) + Cycle(Rotation(rows), n)
  {
    hide Run, AllowedRun, Rotation, Cycle, Turn, SentIds, Attempts;
    var start := Start(rows, workers);
    StartHolds(rows, workers);
    assert SendsNext(start);
    hide Start, Invariant, SendsNext;
    RunIsAttempts(start, events);
    SendsFollowRotation(rows, CallsOf(start, events));
  }

  /** And no item of the rotation is more than one success ahead of another. */
  lemma {:induction false} WorkersTakeTurns(
      rows: Rows, workers: nat, events: seq<Event>, i: nat, j: nat)
    requires Kept(rows) && AllowedRun(Start(rows, workers), events) && NoEdits(events)
    requires rows.config.Some? && Turn(rows) == 0 && i < |Rotation(rows)| && j < |Rotation(rows)|
    ensures var sent := NewlySent(rows, Run(Start(rows, workers), events).rows);
            Count(sent, Rotation(rows)[i].id) <= Count(sent, Rotation(rows)[j].id) + 1
  {
    hide Run, AllowedRun, Rotation, Turn, NewlySent, Attempts;
    var start := Start(rows, workers);
    StartHolds(rows, workers);
    assert SendsNext(start);
    hide Start, Invariant, SendsNext;
    RunIsAttempts(start, events);
    ItemsTakeTurns(rows, CallsOf(start, events), i, j);
  }
}
