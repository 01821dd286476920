/** One slot, one attempt, across edits: which edits keep it, and what the others can bring about. */
module AutoMessageSlots {
  import opened Prelude
  import opened AutoMessageRows
  import opened AutoMessageService
  import opened AutoMessageScheduler
  import opened AutoMessageSafety

  /** The slots of the attempts increase, and the next slot lies beyond the last one. */
  ghost predicate SlotsIncrease(w: World) {
    && (forall k, l :: 0 <= k < l < |w.attempts| ==> w.attempts[k].slot < w.attempts[l].slot)
    && (w.attempts != [] && w.rows.config.Some? && w.rows.config.value.nextSendAt.Some? ==>
          Last(w.attempts).slot < w.rows.config.value.nextSendAt.value)
  }

  // ---------- Edits ----------

  /** The time a request sets, if it sets one: an activation and a save that enables do. */
  function SetTime(rows: Rows, step: Step, now: int): Option<int>
    requires Possible(rows, step)
  {
    if Take(rows, step, now).0.Err? then None
    else
      match step
      case Enable(interval) =>
        Some(now + Seconds(if interval <= 0 then EnsuredConfig(rows).intervalMinutes else interval))
      case SaveConfig(params, _) => if params.enabled then Some(now + Seconds(params.intervalMinutes)) else None
      case _ => None
  }

  /** An edit sets that time and leaves the time alone otherwise. */
  lemma {:induction false} EditSetsTime(rows: Rows, step: Step, now: int)
    requires Possible(rows, step) && !step.Attempt?
    ensures var after := Take(rows, step, now).1.config;
            && (SetTime(rows, step, now).Some? ==> after.Some? && after.value.nextSendAt == SetTime(rows, step, now))
            && (SetTime(rows, step, now) == None && after.Some? ==>
                  after.value.nextSendAt == EnsuredConfig(rows).nextSendAt)
  {
    hide SaveInputs, SortInputs, Rotation, ParamsError, InputError;
  }

  /** The edit sets no time, or one beyond the last slot attempted: a caller can check it before the edit. */
  ghost predicate Timely(w: World, step: Step, now: int)
    requires Possible(w.rows, step)
  {
    SetTime(w.rows, step, now).Some? && w.attempts != [] ==>
      Last(w.attempts).slot < SetTime(w.rows, step, now).value
  }

  /** An edit keeps the slots increasing exactly when it is timely. */
  lemma {:induction false} EditKeepsIncreaseIff(w: World, step: Step, now: int)
    requires SlotsIncrease(w) && Allowed(w, Edit(step, now))
    ensures SlotsIncrease(Apply(w, Edit(step, now))) <==> Timely(w, step, now)
  {
    EditSetsTime(w.rows, step, now);
    hide Take, Possible, Pending, SetTime;
  }

  // ---------- Other steps ----------

  lemma {:induction false} SameLogIncreases(w: World, w': World)
    requires SlotsIncrease(w) && w'.attempts == w.attempts && w'.rows == w.rows
    ensures SlotsIncrease(w')
  {
  }

  lemma {:induction false} LongerLogIncreases(w: World, w': World, log: LoggedAttempt)
    requires SlotsIncrease(w) && w'.attempts == w.attempts + [log]
    requires w.rows.config.Some? && w.rows.config.value.nextSendAt == Some(log.slot)
    requires w'.rows.config.Some? && w'.rows.config.value.nextSendAt.Some? ==>
               log.slot < w'.rows.config.value.nextSendAt.value
    ensures SlotsIncrease(w')
  {
    forall k, l | 0 <= k < l < |w'.attempts| ensures w'.attempts[k].slot < w'.attempts[l].slot {
      if l == |w.attempts| {
        assert w'.attempts[l] == log && w'.attempts[k] == w.attempts[k];
        assert w.attempts[k].slot <= Last(w.attempts).slot;
      } else {
        assert w'.attempts[l] == w.attempts[l] && w'.attempts[k] == w.attempts[k];
      }
    }
  }

  lemma {:induction false} LogKeepsIncrease(w: World, e: Event)
    requires RowLockHeld(w) && RowsKept(w) && SlotsIncrease(w) && Allowed(w, e) && (e.Begin? || e.Commit?)
    ensures SlotsIncrease(Apply(w, e))
  {
    LoggedIsDue(w, e);
    if w.rows.config.Some? {
      KeptInterval(w.rows);
    }
    hide Apply, Allowed, RowLockHeld, RowsKept, SlotsIncrease;
    if Apply(w, e).attempts == w.attempts {
      SameLogIncreases(w, Apply(w, e));
    } else {
      LongerLogIncreases(w, Apply(w, e), Last(Apply(w, e).attempts));
    }
  }

  lemma {:induction false} QuietKeepsIncrease(w: World, e: Event)
    requires SlotsIncrease(w) && Allowed(w, e) && !e.Edit? && !e.Begin? && !e.Commit?
    ensures SlotsIncrease(Apply(w, e))
  {
    hide SlotsIncrease, Pending, BizIdOf, Due;
    assert Apply(w, e).attempts == w.attempts && Apply(w, e).rows == w.rows;
    SameLogIncreases(w, Apply(w, e));
  }

  ghost predicate TimelyEvent(w: World, e: Event)
    requires Allowed(w, e)
  {
    e.Edit? ==> Timely(w, e.step, e.now)
  }

  /** Whatever clocks anybody reads, every step but an untimely edit keeps the slots increasing. */
  lemma {:induction false} StepKeepsIncreaseIff(w: World, e: Event)
    requires Invariant(w) && SlotsIncrease(w) && Allowed(w, e)
    ensures SlotsIncrease(Apply(w, e)) <==> TimelyEvent(w, e)
  {
    hide SlotsIncrease, Apply, Timely;
    match e {
      case Edit(step, now) => EditKeepsIncreaseIff(w, step, now);
      case Begin(_, _) => LogKeepsIncrease(w, e);
      case Commit(_) => LogKeepsIncrease(w, e);
      case _ => QuietKeepsIncrease(w, e);
    }
  }

  // ---------- Runs ----------

  ghost predicate TimelyRun(w: World, events: seq<Event>)
    requires AllowedRun(w, events)
    decreases |events|
  {
    events == [] || (TimelyEvent(w, events[0]) && TimelyRun(Apply(w, events[0]), events[1..]))
  }

  lemma {:induction false} TimelyRunIncreases(w: World, events: seq<Event>)
    requires Invariant(w) && SlotsIncrease(w) && AllowedRun(w, events) && TimelyRun(w, events)
    ensures SlotsIncrease(Run(w, events))
    decreases |events|
  {
    hide Apply, Allowed, TimelyEvent, Invariant, SlotsIncrease;
    if events != [] {
      StepKeepsIncreaseIff(w, events[0]);
      OneStepHolds(w, events[0]);
      TimelyRunIncreases(Apply(w, events[0]), events[1..]);
    }
  }

  lemma {:induction false} TimelyReachable(rows: Rows, workers: nat, events: seq<Event>)
    requires Kept(rows) && AllowedRun(Start(rows, workers), events)
    requires TimelyRun(Start(rows, workers), events)
    ensures SlotsIncrease(Run(Start(rows, workers), events))
  {
    hide AllowedRun, TimelyRun, Run, Invariant;
    StartHolds(rows, workers);
    assert SlotsIncrease(Start(rows, workers));
    hide Start;
    TimelyRunIncreases(Start(rows, workers), events);
  }

  /** With timely edits every attempt of a whole run has a slot of its own: the slots of the log strictly increase. */
  lemma {:induction false} SlotsIncreaseAcrossEdits(
      rows: Rows, workers: nat, events: seq<Event>, k: nat, l: nat)
    requires Kept(rows) && AllowedRun(Start(rows, workers), events)
    requires TimelyRun(Start(rows, workers), events)
    requires k < l < |Run(Start(rows, workers), events).attempts|
    ensures var attempts := Run(Start(rows, workers), events).attempts;
            attempts[k].slot < attempts[l].slot
  {
    hide AllowedRun, TimelyRun, Run, Start;
    TimelyReachable(rows, workers, events);
  }

  // ---------- An untimely edit ----------

  const ONLY_ITEM := Item(1, 1, "hello", true, false)
  const ONE_ITEM_ROWS := Rows(7, Some(Config(true, 30, 0, Some(1800), None, "", "", true, 1)), [ONLY_ITEM], [])
  const ACCEPTED := SendResult(true, "")

  lemma {:induction false} OneItemRotation(rows: Rows, item: Item)
    requires rows.items == [item] && item.enabled && !item.deleted
    ensures Rotation(rows) == [item]
  {
    var items := [item];
    assert Init(items) == [] && Last(items) == item;
    assert Live(items) == items;
    assert Ordered(items) == items;
    assert Enabled(items) == items;
  }

  /** A round that runs undisturbed: the one worker lists, locks, begins, sends, commits and releases. */
  function UndisturbedRound(now: int, request: int): seq<Event> {
    [List(0, now), Acquire(0, request)] + [Begin(0, true), Send(0, true, ACCEPTED)] + [Commit(0), Release(0)]
  }

  ghost predicate AtRest(w: World) {
    |w.workers| == 1 && w.workers[0] == Idle && w.key == None && w.rowLock == None
  }

  /** The candidate of a one-item configuration at a slot. */
  function OnlyCandidate(item: Item, slot: int): Candidate {
    Candidate(7, slot, 0, item)
  }

  /** A one-item configuration, at rest and due at `slot`. */
  ghost predicate OneItemDue(w: World, item: Item, slot: int, now: int) {
    && AtRest(w)
    && w.rows.configId == 7 && w.rows.items == [item] && item.enabled && !item.deleted
    && w.rows.config.Some? && w.rows.config.value.enabled
    && w.rows.config.value.nextSendAt == Some(slot) && slot <= now
    && w.rows.config.value.currentIndex == 0
  }

  /** The state after the first four steps of a round: sent, and not yet committed. */
  function Sent(w: World, item: Item, slot: int, now: int, request: int): World {
    w.(workers := [Answered(now, request, OnlyCandidate(item, slot), 1, ACCEPTED)],
       rowLock := Some(0),
       key := Some(Lease(request, 0)),
       requests := w.requests + {request},
       sends := w.sends + [OnlyCandidate(item, slot)],
       delivered := w.delivered + {BizIdOf(OnlyCandidate(item, slot))})
  }

  /** The state after the first two steps of a round: the lock is taken. */
  function LockTaken(w: World, now: int, request: int): World {
    w.(workers := [Locked(now, request)], key := Some(Lease(request, 0)), requests := w.requests + {request})
  }

  lemma {:induction false} RoundLocks(w: World, item: Item, slot: int, now: int, request: int)
    requires OneItemDue(w, item, slot, now) && request !in w.requests
    ensures var events := [List(0, now), Acquire(0, request)];
            AllowedRun(w, events) && Run(w, events) == LockTaken(w, now, request)
  {
    hide Rotation, BizIdOf, Pending, Run, AllowedRun;
    RunOfTwo(w, List(0, now), Acquire(0, request));
  }

  lemma {:induction false} LockedSends(w: World, item: Item, slot: int, now: int, request: int)
    requires OneItemDue(w, item, slot, now)
    ensures var events := [Begin(0, true), Send(0, true, ACCEPTED)];
            && AllowedRun(LockTaken(w, now, request), events)
            && Run(LockTaken(w, now, request), events) == Sent(w, item, slot, now, request)
  {
    OneItemRotation(w.rows, item);
    hide Rotation, BizIdOf, Pending, Run, AllowedRun;
    var locked := LockTaken(w, now, request);
    assert CandidateOf(w.rows) == OnlyCandidate(item, slot);
    assert Apply(locked, Begin(0, true)).workers == [Sending(now, request, OnlyCandidate(item, slot), 1)];
    hide CandidateOf;
    RunOfTwo(locked, Begin(0, true), Send(0, true, ACCEPTED));
  }

  lemma {:induction false} RoundSends(w: World, item: Item, slot: int, now: int, request: int)
    requires OneItemDue(w, item, slot, now) && request !in w.requests
    ensures var events := [List(0, now), Acquire(0, request)] + [Begin(0, true), Send(0, true, ACCEPTED)];
            AllowedRun(w, events) && Run(w, events) == Sent(w, item, slot, now, request)
  {
    hide Run, AllowedRun, LockTaken, Sent, OneItemDue;
    RoundLocks(w, item, slot, now, request);
    LockedSends(w, item, slot, now, request);
    RunAppend(w, [List(0, now), Acquire(0, request)], [Begin(0, true), Send(0, true, ACCEPTED)]);
  }

  /** What an undisturbed round leaves of the one-item configuration, due at `slot`. */
  lemma {:induction false} UndisturbedRoundSends(w: World, item: Item, slot: int, now: int, request: int)
    requires OneItemDue(w, item, slot, now) && request !in w.requests
    ensures AllowedRun(w, UndisturbedRound(now, request))
    ensures var end := Run(w, UndisturbedRound(now, request));
            var interval := w.rows.config.value.intervalMinutes;
            var log := LoggedAttempt(slot, now, interval, w.configEdits, Some(OnlyCandidate(item, slot)), true);
            && AtRest(end)
            && end.requests == w.requests + {request}
            && end.rows == Attempted(w.rows, OnlyCandidate(item, slot), 1, now, ACCEPTED)
            && end.attempts == w.attempts + [log]
            && end.sends == w.sends + [OnlyCandidate(item, slot)]
            && end.delivered == w.delivered + {BizIdOf(OnlyCandidate(item, slot))}
  {
    RoundSends(w, item, slot, now, request);
    hide Rotation, BizIdOf, Pending, AllowedRun, Run, Attempted;
    RunOfTwo(Sent(w, item, slot, now, request), Commit(0), Release(0));
    RunAppend(w, [List(0, now), Acquire(0, request)] + [Begin(0, true), Send(0, true, ACCEPTED)],
              [Commit(0), Release(0)]);
  }

  /** A run in which an activation read its clock an interval before it was committed. */
  function LateActivation(): seq<Event> {
    UndisturbedRound(1800, 1) + ([Edit(Enable(30), 0)] + UndisturbedRound(1800, 2))
  }

  lemma {:induction false} OneItemRowsAreKept()
    ensures Kept(ONE_ITEM_ROWS)
  {
    var items := [ONLY_ITEM];
    assert Init(items) == [] && Last(items) == ONLY_ITEM;
    assert Live(items) == items;
  }

  /** The edit in the middle is not timely: it sets the slot the first round was at. */
  lemma {:induction false} LateEdit(w: World)
    requires AtRest(w) && w.rows == Attempted(ONE_ITEM_ROWS, OnlyCandidate(ONLY_ITEM, 1800), 1, 1800, ACCEPTED)
    requires w.attempts != [] && Last(w.attempts).slot == 1800
    ensures Allowed(w, Edit(Enable(30), 0)) && !Timely(w, Enable(30), 0)
    ensures var after := Apply(w, Edit(Enable(30), 0));
            && OneItemDue(after, ONLY_ITEM, 1800, 1800)
            && after.requests == w.requests && after.attempts == w.attempts && after.delivered == w.delivered
  {
    OneItemRotation(w.rows, ONLY_ITEM);
    hide Rotation, Pending;
  }

  /**
   Then one slot is logged twice. Both attempts are logged as successes, but they carry the same business id,
   and a message service that keeps one message for each id keeps one for the two.
   */
  lemma {:induction false} LateActivationRepeatsSlot()
    ensures Kept(ONE_ITEM_ROWS) && AllowedRun(Start(ONE_ITEM_ROWS, 1), LateActivation())
    ensures var end := Run(Start(ONE_ITEM_ROWS, 1), LateActivation());
            && |end.attempts| == 2
            && end.attempts[0].slot == end.attempts[1].slot == 1800
            && end.attempts[0].success && end.attempts[1].success
            && end.attempts[0].sent == end.attempts[1].sent == Some(OnlyCandidate(ONLY_ITEM, 1800))
            && |end.delivered| == 1
  {
    hide Run, AllowedRun, BizIdOf, Rotation, Attempted;
    OneItemRowsAreKept();
    var start := Start(ONE_ITEM_ROWS, 1);
    UndisturbedRoundSends(start, ONLY_ITEM, 1800, 1800, 1);
    var w1 := Run(start, UndisturbedRound(1800, 1));
    LateEdit(w1);
    hide Apply, Allowed, Timely;
    var w2 := Apply(w1, Edit(Enable(30), 0));
    RunOfOne(w1, Edit(Enable(30), 0));
    UndisturbedRoundSends(w2, ONLY_ITEM, 1800, 1800, 2);
    RunAppend(w1, [Edit(Enable(30), 0)], UndisturbedRound(1800, 2));
    RunAppend(start, UndisturbedRound(1800, 1), [Edit(Enable(30), 0)] + UndisturbedRound(1800, 2));
    assert Run(w2, UndisturbedRound(1800, 2)).delivered == {BizIdOf(OnlyCandidate(ONLY_ITEM, 1800))};
  }
}
