/** What holds over every run of the scheduler. */
module AutoMessageSafety {
  import opened Prelude
  import opened AutoMessageRows
  import opened AutoMessageService
  import opened AutoMessageScheduler

  ghost predicate Invariant(w: World) {
    && RowLockHeld(w)
    && RowsKept(w)
    && SlotsHeld(w)
    && LeasesHeld(w)
    && DeliveriesHeld(w)
    && SendsHeld(w)
  }

  lemma {:induction false} StartHolds(rows: Rows, workers: nat)
    requires Kept(rows)
    ensures Invariant(Start(rows, workers))
  {
  }

  lemma {:induction false} OneStepHolds(w: World, e: Event)
    requires Invariant(w) && Allowed(w, e)
    ensures Invariant(Apply(w, e))
  {
    hide Apply, Allowed, RowLockHeld, RowsKept, SlotsHeld, LeasesHeld, DeliveriesHeld, SendsHeld;
    StepKeepsRowLock(w, e);
    StepKeepsRows(w, e);
    StepKeepsSlots(w, e);
    StepKeepsLeases(w, e);
    StepKeepsDeliveries(w, e);
    StepKeepsSends(w, e);
  }

  lemma {:induction false} RunHolds(w: World, events: seq<Event>)
    requires Invariant(w) && AllowedRun(w, events)
    ensures Invariant(Run(w, events))
    decreases |events|
  {
    hide Apply, Allowed, Invariant;
    if events != [] {
      OneStepHolds(w, events[0]);
      RunHolds(Apply(w, events[0]), events[1..]);
    }
  }

  lemma {:induction false} ReachableHolds(rows: Rows, workers: nat, events: seq<Event>)
    requires Kept(rows) && AllowedRun(Start(rows, workers), events)
    ensures Invariant(Run(Start(rows, workers), events))
  {
    hide Invariant, Start, Run, AllowedRun;
    StartHolds(rows, workers);
    RunHolds(Start(rows, workers), events);
  }

  // ---------- Runs and the log ----------

  lemma {:induction false} RunAppend(w: World, a: seq<Event>, b: seq<Event>)
    requires AllowedRun(w, a) && AllowedRun(Run(w, a), b)
    ensures AllowedRun(w, a + b) && Run(w, a + b) == Run(Run(w, a), b)
    decreases |a|
  {
    hide Apply, Allowed;
    if a == [] {
      assert a + b == b;
    } else {
      assert (a + b)[0] == a[0] && (a + b)[1..] == a[1..] + b;
      RunAppend(Apply(w, a[0]), a[1..], b);
    }
  }

  lemma {:induction false} RunShowsLog(w: World, events: seq<Event>, before: seq<Log>)
    requires Invariant(w) && LogShown(w, before) && AllowedRun(w, events)
    ensures LogShown(Run(w, events), before)
    decreases |events|
  {
    hide Apply, Allowed, LogShown, RowLockHeld, RowsKept, SlotsHeld, LeasesHeld, DeliveriesHeld, SendsHeld;
    if events != [] {
      StepKeepsLog(w, events[0], before);
      hide Invariant;
      OneStepHolds(w, events[0]);
      RunShowsLog(Apply(w, events[0]), events[1..], before);
    }
  }

  /** After any run, the stored log is the rows it began with and one row for each attempt. */
  lemma {:induction false} LogShowsAttempts(rows: Rows, workers: nat, events: seq<Event>)
    requires Kept(rows) && AllowedRun(Start(rows, workers), events)
    ensures LogShown(Run(Start(rows, workers), events), rows.logs)
  {
    hide Run, AllowedRun, Invariant;
    StartHolds(rows, workers);
    assert LogShown(Start(rows, workers), rows.logs);
    hide Start, LogShown;
    RunShowsLog(Start(rows, workers), events, rows.logs);
  }

  // ---------- One attempt per slot ----------

  /**
   Whatever clocks the workers read, however locks expire and workers crash: two attempts with no
   configuration edit between them have different slots, and are logged an interval or more apart.
   */
  lemma {:induction false} OneAttemptPerSlot(rows: Rows, workers: nat, events: seq<Event>, k: nat, l: nat)
    requires Kept(rows) && AllowedRun(Start(rows, workers), events)
    requires var attempts := Run(Start(rows, workers), events).attempts;
             k < l < |attempts| && attempts[k].epoch == attempts[l].epoch
    ensures var attempts := Run(Start(rows, workers), events).attempts;
            && attempts[k].slot < attempts[l].slot
            && attempts[k].sentAt + Seconds(attempts[k].interval) <= attempts[l].sentAt
  {
    ReachableHolds(rows, workers, events);
    hide AllowedRun, Start, Run, RowLockHeld, RowsKept, LeasesHeld, DeliveriesHeld, SendsHeld;
  }

  /** A log whose attempts come epoch by epoch, each an interval or more after the one before it. */
  ghost predicate LogInOrder(attempts: seq<LoggedAttempt>) {
    && Spaced(attempts)
    && (forall i, j :: 0 <= i < j < |attempts| ==> attempts[i].epoch <= attempts[j].epoch)
    && (forall i, j :: 0 <= i < j < |attempts| && attempts[i].epoch == attempts[j].epoch ==>
          attempts[i].interval == attempts[j].interval)
    && (forall i :: 0 <= i < |attempts| ==>
          attempts[i].slot <= attempts[i].sentAt && ValidInterval(attempts[i].interval))
  }

  lemma {:induction false} LogIsInOrder(w: World)
    requires SlotsHeld(w)
    ensures LogInOrder(w.attempts)
  {
    hide Spaced;
  }

  lemma {:induction false} AttemptsSpreadOut(attempts: seq<LoggedAttempt>, k: nat, l: nat)
    requires k <= l < |attempts| && attempts[k].epoch == attempts[l].epoch && LogInOrder(attempts)
    ensures attempts[k].sentAt + (l - k) * Seconds(attempts[k].interval) <= attempts[l].sentAt
    decreases l
  {
    if k < l {
      assert attempts[k].epoch <= attempts[l - 1].epoch <= attempts[l].epoch;
      AttemptsSpreadOut(attempts, k, l - 1);
      assert attempts[l - 1].sentAt + Seconds(attempts[k].interval) <= attempts[l].sentAt;
      assert (l - k) * Seconds(attempts[k].interval)
          == (l - 1 - k) * Seconds(attempts[k].interval) + Seconds(attempts[k].interval);
    }
  }

  lemma {:induction false} MultiplesThatFit(n: nat, step: int, span: nat)
    requires step > 0 && n * step <= span
    ensures n <= span / step
  {
    var q := span / step;
    assert span < q * step + step;
    assert 0 < (q + 1 - n) * step;
  }

  /**
   No catch-up burst: among log rows with no configuration edit between them, a span of time holds at most one
   more than the intervals that fit in it.
   */
  lemma {:induction false} NoCatchUpBurst(
      rows: Rows, workers: nat, events: seq<Event>, k: nat, l: nat, span: nat)
    requires Kept(rows) && AllowedRun(Start(rows, workers), events)
    requires var w := Run(Start(rows, workers), events);
             var base := |rows.logs|;
             && k <= l < |w.attempts| && base + l < |w.rows.logs|
             && w.attempts[k].epoch == w.attempts[l].epoch
             && w.rows.logs[base + l].sentAt <= w.rows.logs[base + k].sentAt + span
    ensures var interval := Seconds(Run(Start(rows, workers), events).attempts[k].interval);
            interval > 0 && l - k + 1 <= span / interval + 1
  {
    hide AllowedRun, Start, Run, RowLockHeld, RowsKept, SlotsHeld, LeasesHeld, DeliveriesHeld, SendsHeld;
    ReachableHolds(rows, workers, events);
    LogShowsAttempts(rows, workers, events);
    var w := Run(Start(rows, workers), events);
    assert Shows(w.rows.logs[|rows.logs| + k], w.attempts[k]) && Shows(w.rows.logs[|rows.logs| + l], w.attempts[l]);
    hide LogShown;
    LogIsInOrder(w);
    AttemptsSpreadOut(w.attempts, k, l);
    assert ValidInterval(w.attempts[k].interval);
    hide LogInOrder;
    MultiplesThatFit(l - k, Seconds(w.attempts[k].interval), span);
  }

  // ---------- The Redis lock ----------

  lemma {:induction false} LeaseStaysWithOwner(w: World, e: Event)
    requires LeasesHeld(w) && Allowed(w, e) && w.key.Some?
    ensures Apply(w, e).key != w.key ==> Apply(w, e).key == None && (e.Expire? || e == Release(w.key.value.owner))
  {
    hide Take, Possible, Rotation, Pending, BizIdOf, CandidateOf, Due, Dissolved, NothingToSend, Attempted;
  }

  /**
   Lock ownership: in every reachable state, the step that removes a worker's lease is that worker's own
   release or the expiry, and at most one worker carries the request the key holds.
   */
  lemma {:induction false} OnlyTheOwnerReleases(rows: Rows, workers: nat, events: seq<Event>, e: Event)
    requires Kept(rows) && AllowedRun(Start(rows, workers), events)
    requires Allowed(Run(Start(rows, workers), events), e)
    requires Run(Start(rows, workers), events).key.Some?
    ensures var w := Run(Start(rows, workers), events);
            Apply(w, e).key != w.key ==> Apply(w, e).key == None && (e.Expire? || e == Release(w.key.value.owner))
    ensures var w := Run(Start(rows, workers), events);
            forall i ::
              && 0 <= i < |w.workers| && w.workers[i].HasRequest()
              && w.workers[i].request == w.key.value.request ==>
                i == w.key.value.owner
  {
    ReachableHolds(rows, workers, events);
    hide AllowedRun, Start, Run, RowLockHeld, RowsKept, DeliveriesHeld, SlotsHeld, SendsHeld, Allowed, Apply;
    LeaseStaysWithOwner(Run(Start(rows, workers), events), e);
  }

  lemma {:induction false} RunOfOne(w: World, a: Event)
    requires Allowed(w, a)
    ensures AllowedRun(w, [a]) && Run(w, [a]) == Apply(w, a)
  {
    hide Apply, Allowed;
    assert [a][1..] == [];
  }

  lemma {:induction false} RunOfTwo(w: World, a: Event, b: Event)
    requires Allowed(w, a) && Allowed(Apply(w, a), b)
    ensures AllowedRun(w, [a, b]) && Run(w, [a, b]) == Apply(Apply(w, a), b)
  {
    hide Apply, Allowed;
    RunOfOne(Apply(w, a), b);
    assert [a, b][1..] == [b];
  }

  lemma {:induction false} RunOfFour(w: World, a: Event, b: Event, c: Event, d: Event)
    requires Allowed(w, a) && Allowed(Apply(w, a), b)
    requires Allowed(Apply(Apply(w, a), b), c) && Allowed(Apply(Apply(Apply(w, a), b), c), d)
    ensures AllowedRun(w, [a, b, c, d]) && Run(w, [a, b, c, d]) == Apply(Apply(Apply(Apply(w, a), b), c), d)
  {
    hide Apply, Allowed;
    RunOfTwo(Apply(Apply(w, a), b), c, d);
    RunOfTwo(w, a, b);
    assert [a, b, c, d] == [a, b] + [c, d];
    RunAppend(w, [a, b], [c, d]);
  }

  /** The first of two workers holds the lock no longer, because its lease expired; the second still waits for it. */
  function LeaseExpired(rows: Rows, now: int, request: int): World {
    Start(rows, 2).(workers := [Locked(now, request), Listed(now)], requests := {request})
  }

  lemma {:induction false} LeaseCanExpire(rows: Rows, now: int, request: int)
    requires rows.config.Some? && Due(rows.config.value, now)
    ensures var events := [List(0, now), List(1, now), Acquire(0, request), Expire];
            && AllowedRun(Start(rows, 2), events)
            && Run(Start(rows, 2), events) == LeaseExpired(rows, now, request)
  {
    hide Due;
    var start := Start(rows, 2);
    assert start.workers == [Idle, Idle];
    var listed := start.(workers := [Listed(now), Listed(now)]);
    assert Apply(Apply(start, List(0, now)), List(1, now)) == listed;
    assert Apply(Apply(listed, Acquire(0, request)), Expire) == LeaseExpired(rows, now, request);
    RunOfFour(start, List(0, now), List(1, now), Acquire(0, request), Expire);
  }

  /**
   Request ids must be unique. The state of `LeaseCanExpire` is reached by a run; if the second worker now
   acquires the lock under the request id of the first, which no run allows, the first one's release removes
   the second one's lease.
   */
  lemma {:induction false} SharedRequestReleasesAnothersLease(rows: Rows, now: int, request: int)
    requires rows.config.Some? && Due(rows.config.value, now)
    ensures var expired := LeaseExpired(rows, now, request);
            var shared := Acquired(expired, 1, request);
            var release := [Begin(0, false), Release(0)];
            && expired.key == None && !Allowed(expired, Acquire(1, request))
            && Allowed(expired, Acquire(1, request + 1))
            && shared.key == Some(Lease(request, 1))
            && AllowedRun(shared, release)
            && Run(shared, release).key == None
            && Run(shared, release).workers == [Idle, Locked(now, request)]
  {
    hide Pending, Dissolved, Run, AllowedRun;
    var shared := Acquired(LeaseExpired(rows, now, request), 1, request);
    assert Apply(shared, Begin(0, false)).workers == [Finishing(request), Locked(now, request)];
    RunOfTwo(shared, Begin(0, false), Release(0));
  }

  ghost predicate NeverExpires(events: seq<Event>) {
    forall k :: 0 <= k < |events| ==> !events[k].Expire?
  }

  ghost predicate LockedExclusively(w: World) {
    forall i :: 0 <= i < |w.workers| && w.workers[i].HasRequest() ==> w.key == Some(Lease(w.workers[i].request, i))
  }

  lemma {:induction false} StepKeepsExclusion(w: World, e: Event)
    requires LeasesHeld(w) && LockedExclusively(w) && Allowed(w, e) && !e.Expire?
    ensures LockedExclusively(Apply(w, e))
  {
    hide Take, Possible, Rotation, Pending, BizIdOf, CandidateOf, Due;
  }

  lemma {:induction false} ExclusionHolds(w: World, events: seq<Event>)
    requires Invariant(w) && LockedExclusively(w) && AllowedRun(w, events) && NeverExpires(events)
    ensures LockedExclusively(Run(w, events))
    decreases |events|
  {
    hide Apply, Allowed, LockedExclusively, RowLockHeld, RowsKept, SlotsHeld, LeasesHeld, DeliveriesHeld, SendsHeld;
    if events != [] {
      StepKeepsExclusion(w, events[0]);
      hide Invariant;
      OneStepHolds(w, events[0]);
      ExclusionHolds(Apply(w, events[0]), events[1..]);
    }
  }

  /** While no lease expires, at most one worker is ever between acquiring and releasing the lock. */
  lemma {:induction false} OneWorkerAtATime(rows: Rows, workers: nat, events: seq<Event>, i: nat, j: nat)
    requires Kept(rows) && AllowedRun(Start(rows, workers), events) && NeverExpires(events)
    requires var w := Run(Start(rows, workers), events);
             i < |w.workers| && j < |w.workers| && w.workers[i].HasRequest() && w.workers[j].HasRequest()
    ensures i == j
  {
    hide AllowedRun, Run, Invariant;
    StartHolds(rows, workers);
    assert LockedExclusively(Start(rows, workers));
    hide Start;
    ExclusionHolds(Start(rows, workers), events);
  }
}
