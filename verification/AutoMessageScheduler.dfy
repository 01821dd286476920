/**
 The scheduler as a step system: any number of workers on any number of nodes attempt one group's
 configuration, each with the clock reading it started its round with, while the Redis lock may expire,
 workers may crash anywhere, and administrators edit.
 */
module AutoMessageScheduler {
  import opened Prelude
  import opened AutoMessageRows
  import opened AutoMessageService

  // ---------- The state ----------

  datatype Phase =
    | Idle
    | Listed(now: int)
    | Locked(now: int, request: int)
    | Sending(now: int, request: int, candidate: Candidate, length: nat)
    | Answered(now: int, request: int, candidate: Candidate, length: nat, result: SendResult)
    | Finishing(request: int)
  {
    predicate InTransaction() {
      Sending? || Answered?
    }

    predicate HasRequest() {
      !Idle? && !Listed?
    }
  }

  /** The value of the Redis key, and the worker that wrote it. */
  datatype Lease = Lease(request: int, owner: nat)

  /** A committed attempt and what it sent, if anything; `epoch` counts the configuration edits before it. */
  datatype LoggedAttempt = LoggedAttempt(
    slot: int, sentAt: int, interval: int, epoch: nat, sent: Option<Candidate>, success: bool)

  /**
   `key` is the Redis lock, `rowLock` the transaction that holds the configuration row, `sends` what the
   message service accepted, `delivered` the ids under which it keeps one message each, and `orphans` the
   ids an edit or a dissolution made unreachable before they were sent again.
   */
  datatype World = World(
    rows: Rows,
    workers: seq<Phase>,
    rowLock: Option<nat>,
    key: Option<Lease>,
    requests: set<int>,
    sends: seq<Candidate>,
    delivered: set<string>,
    attempts: seq<LoggedAttempt>,
    orphans: set<string>,
    configEdits: nat,
    edits: nat,
    dissolutions: nat)

  datatype Event =
    | List(worker: nat, now: int)
    | Acquire(worker: nat, request: int)
    | SkipLocked(worker: nat)
    | Expire
    | Begin(worker: nat, active: bool)
    | Send(worker: nat, accepted: bool, result: SendResult)
    | Commit(worker: nat)
    | Rollback(worker: nat)
    | Crash(worker: nat)
    | Release(worker: nat)
    | Edit(step: Step, now: int)

  /** The business id the next attempt would send, if there is one. */
  function Pending(rows: Rows): set<string> {
    if CanSend(rows) then {BizIdOf(CandidateOf(rows))} else {}
  }

  // ---------- The steps ----------

  ghost predicate Allowed(w: World, e: Event) {
    && (e.Expire? ==> w.key.Some?)
    && (e.Edit? ==>
          && !e.step.Attempt?
          && Possible(w.rows, e.step)
          // A transaction's row lock keeps every write to the configuration row waiting.
          && (w.rowLock == None || Take(w.rows, e.step, e.now).1.config == w.rows.config))
    && (!e.Expire? && !e.Edit? ==>
          && e.worker < |w.workers|
          && var phase := w.workers[e.worker];
             match e
             case List(_, now) => phase.Idle? && w.rows.config.Some? && Due(w.rows.config.value, now)
             case Acquire(_, request) => phase.Listed? && w.key == None && request !in w.requests
             case SkipLocked(_) => phase.Listed?
             case Begin(_, _) => phase.Locked? && w.rowLock == None
             case Send(_, accepted, result) => phase.Sending? && (result.success ==> accepted)
             case Commit(_) => phase.Answered? && phase.length > 0 && w.rows.config.Some?
             case Rollback(_) => phase.InTransaction()
             case Crash(_) => !phase.Idle?
             case Release(_) => phase.Finishing?)
  }

  function At(w: World, i: nat, phase: Phase): World
    requires i < |w.workers|
  {
    w.(workers := w.workers[i := phase])
  }

  /** The recheck under the row lock, and the branches that commit without sending. */
  function Begun(w: World, i: nat, now: int, request: int, active: bool): World
    requires i < |w.workers|
  {
    if w.rows.config.None? || !Due(w.rows.config.value, now) then At(w, i, Finishing(request))
    else
      var config := w.rows.config.value;
      var log := LoggedAttempt(config.nextSendAt.value, now, config.intervalMinutes, w.configEdits, None, false);
      if !active then
        At(w, i, Finishing(request)).(
          rows := Dissolved(w.rows, now), attempts := w.attempts + [log],
          orphans := w.orphans + Pending(w.rows), dissolutions := w.dissolutions + 1)
      else if Rotation(w.rows) == [] then
        At(w, i, Finishing(request)).(rows := NothingToSend(w.rows, now), attempts := w.attempts + [log])
      else
        At(w, i, Sending(now, request, CandidateOf(w.rows), |Rotation(w.rows)|)).(rowLock := Some(i))
  }

  function Committed(w: World, i: nat): World
    requires i < |w.workers| && w.workers[i].Answered? && w.workers[i].length > 0 && w.rows.config.Some?
  {
    var p := w.workers[i];
    var log := LoggedAttempt(p.candidate.slot, p.now, w.rows.config.value.intervalMinutes, w.configEdits,
                             Some(p.candidate), p.result.success);
    At(w, i, Finishing(p.request)).(
      rows := Attempted(w.rows, p.candidate, p.length, p.now, p.result),
      rowLock := None,
      attempts := w.attempts + [log])
  }

  function Edited(w: World, step: Step, now: int): World
    requires Possible(w.rows, step)
  {
    var rows := Take(w.rows, step, now).1;
    w.(rows := rows,
       orphans := if rows == w.rows then w.orphans else w.orphans + Pending(w.rows),
       configEdits := if rows.config == w.rows.config then w.configEdits else w.configEdits + 1,
       edits := if rows == w.rows then w.edits else w.edits + 1)
  }

  function Acquired(w: World, i: nat, request: int): World
    requires i < |w.workers| && w.workers[i].Listed?
  {
    At(w, i, Locked(w.workers[i].now, request)).(key := Some(Lease(request, i)), requests := w.requests + {request})
  }

  function Apply(w: World, e: Event): World
    requires Allowed(w, e)
  {
    match e
    case Expire => w.(key := None)
    case Edit(step, now) => Edited(w, step, now)
    case List(i, now) => At(w, i, Listed(now))
    case Acquire(i, request) => Acquired(w, i, request)
    case SkipLocked(i) => At(w, i, Idle)
    case Begin(i, active) => Begun(w, i, w.workers[i].now, w.workers[i].request, active)
    case Send(i, accepted, result) =>
      var p := w.workers[i];
      At(w, i, Answered(p.now, p.request, p.candidate, p.length, result)).(
        sends := if accepted then w.sends + [p.candidate] else w.sends,
        delivered := if accepted then w.delivered + {BizIdOf(p.candidate)} else w.delivered)
    case Commit(i) => Committed(w, i)
    case Rollback(i) => At(w, i, Finishing(w.workers[i].request)).(rowLock := None)
    case Crash(i) => At(w, i, Idle).(rowLock := if w.rowLock == Some(i) then None else w.rowLock)
    case Release(i) =>
      At(w, i, Idle).(key := if w.key.Some? && w.key.value.request == w.workers[i].request then None else w.key)
  }

  function Start(rows: Rows, workers: nat): World {
    World(rows, seq(workers, i => Idle), None, None, {}, [], {}, [], {}, 0, 0, 0)
  }

  ghost predicate AllowedRun(w: World, events: seq<Event>)
    decreases |events|
  {
    events == [] || (Allowed(w, events[0]) && AllowedRun(Apply(w, events[0]), events[1..]))
  }

  ghost function Run(w: World, events: seq<Event>): World
    requires AllowedRun(w, events)
    decreases |events|
  {
    if events == [] then w else Run(Apply(w, events[0]), events[1..])
  }

  // ---------- The row lock ----------

  /** A transaction's configuration is the stored one: due at its reading, with the slot it read. */
  ghost predicate Current(w: World, p: Phase)
    requires p.InTransaction()
  {
    && w.rows.config.Some?
    && Due(w.rows.config.value, p.now)
    && p.candidate.configId == w.rows.configId
    && p.candidate.slot == w.rows.config.value.nextSendAt.value
    && p.candidate.index < p.length
    && p.candidate.index >= 0
  }

  ghost predicate RowLockHeld(w: World) {
    && (forall i :: 0 <= i < |w.workers| && w.workers[i].InTransaction() ==>
          w.rowLock == Some(i) && Current(w, w.workers[i]))
    && (w.rowLock.Some? ==> w.rowLock.value < |w.workers| && w.workers[w.rowLock.value].InTransaction())
  }

  ghost predicate RowsKept(w: World) {
    Kept(w.rows)
  }

  lemma {:induction false} CandidateIsInRange(rows: Rows)
    requires CanSend(rows)
    ensures 0 <= CandidateOf(rows).index < |Rotation(rows)|
  {
  }

  lemma {:induction false} EditKeepsConfigId(rows: Rows, step: Step, now: int)
    requires Possible(rows, step)
    ensures Take(rows, step, now).1.configId == rows.configId
  {
    hide SaveInputs, SortInputs, Rotation;
  }

  lemma {:induction false} BeginKeepsRowLock(w: World, i: nat, active: bool)
    requires RowLockHeld(w) && Allowed(w, Begin(i, active))
    ensures RowLockHeld(Apply(w, Begin(i, active)))
  {
    hide Rotation, BizIdOf, Pending;
    if w.rows.config.Some? && w.rows.config.value.nextSendAt.Some? && Rotation(w.rows) != [] {
      CandidateIsInRange(w.rows);
    }
  }

  lemma {:induction false} StepKeepsRowLock(w: World, e: Event)
    requires RowLockHeld(w) && Allowed(w, e)
    ensures RowLockHeld(Apply(w, e))
  {
    hide Take, Rotation, BizIdOf, Pending, Possible, CandidateOf, CanSend, Dissolved, NothingToSend;
    if e.Begin? {
      hide RowLockHeld, Apply, Allowed;
      BeginKeepsRowLock(w, e.worker, e.active);
    } else if e.Edit? {
      EditKeepsConfigId(w.rows, e.step, e.now);
    }
  }

  lemma {:induction false} StepKeepsRows(w: World, e: Event)
    requires RowsKept(w) && RowLockHeld(w) && Allowed(w, e)
    ensures RowsKept(Apply(w, e))
  {
    hide Take, Possible, Rotation, BizIdOf, Pending;
    if e.Edit? {
      StepKeeps(w.rows, e.step, e.now);
    }
  }

  // ---------- Slots ----------

  /** Between configuration edits, an attempt's slot lies an interval or more after the attempt before it. */
  ghost predicate Spaced(attempts: seq<LoggedAttempt>) {
    forall k, l :: 0 <= k < l < |attempts| && attempts[k].epoch == attempts[l].epoch ==>
      attempts[k].sentAt + Seconds(attempts[k].interval) <= attempts[l].slot
  }

  ghost predicate SlotsHeld(w: World) {
    && Spaced(w.attempts)
    && (forall k, l :: 0 <= k < l < |w.attempts| ==> w.attempts[k].epoch <= w.attempts[l].epoch)
    && (forall k, l :: 0 <= k < l < |w.attempts| && w.attempts[k].epoch == w.attempts[l].epoch ==>
          w.attempts[k].interval == w.attempts[l].interval)
    && (forall k :: 0 <= k < |w.attempts| ==>
          && w.attempts[k].epoch <= w.configEdits
          && w.attempts[k].slot <= w.attempts[k].sentAt
          && ValidInterval(w.attempts[k].interval))
    && (forall k :: 0 <= k < |w.attempts| && w.attempts[k].epoch == w.configEdits ==>
          && w.rows.config.Some?
          && w.rows.config.value.intervalMinutes == w.attempts[k].interval
          && (w.rows.config.value.nextSendAt.Some? ==>
                w.attempts[k].sentAt + Seconds(w.attempts[k].interval) <= w.rows.config.value.nextSendAt.value))
  }

  lemma {:induction false} KeptInterval(rows: Rows)
    requires Kept(rows) && rows.config.Some?
    ensures ValidInterval(rows.config.value.intervalMinutes)
  {
  }

  /** Attempts extended by one that was due at its slot. */
  lemma {:induction false} AttemptKeepsSlots(w: World, w': World, log: LoggedAttempt)
    requires SlotsHeld(w) && RowsKept(w)
    requires w.rows.config.Some? && Due(w.rows.config.value, log.sentAt)
    requires log.slot == w.rows.config.value.nextSendAt.value && log.interval == w.rows.config.value.intervalMinutes
    requires log.epoch == w.configEdits == w'.configEdits && w'.attempts == w.attempts + [log]
    requires w'.rows.config.Some? && w'.rows.config.value.intervalMinutes == log.interval
    requires w'.rows.config.value.nextSendAt == None
          || w'.rows.config.value.nextSendAt == Some(log.sentAt + Seconds(log.interval))
    ensures SlotsHeld(w')
  {
    hide Kept;
    assert ValidInterval(log.interval) by {
      KeptInterval(w.rows);
    }
    forall k | 0 <= k < |w.attempts| ensures w'.attempts[k] == w.attempts[k] {
    }
  }

  lemma {:induction false} SameSlotsHold(w: World, w': World)
    requires SlotsHeld(w) && w'.attempts == w.attempts && w'.configEdits == w.configEdits && w'.rows == w.rows
    ensures SlotsHeld(w')
  {
    hide Spaced;
  }

  /** A step of a transaction either logs an attempt that was due at its slot, or changes no row. */
  lemma {:induction false} LoggedIsDue(w: World, e: Event)
    requires RowLockHeld(w) && Allowed(w, e) && (e.Begin? || e.Commit?)
    ensures var w' := Apply(w, e);
            && w'.configEdits == w.configEdits
            && (w'.attempts == w.attempts ==> w'.rows == w.rows)
            && (w'.attempts != w.attempts ==>
                  && w'.attempts == w.attempts + [Last(w'.attempts)]
                  && var log := Last(w'.attempts);
                     && log.epoch == w.configEdits
                     && w.rows.config.Some? && Due(w.rows.config.value, log.sentAt)
                     && log.slot == w.rows.config.value.nextSendAt.value
                     && log.interval == w.rows.config.value.intervalMinutes
                     && w'.rows.config.Some? && w'.rows.config.value.intervalMinutes == log.interval
                     && (w'.rows.config.value.nextSendAt == None
                         || w'.rows.config.value.nextSendAt == Some(log.sentAt + Seconds(log.interval))))
  {
    hide Rotation, BizIdOf, Pending, CandidateOf;
    assert e.Commit? ==> Current(w, w.workers[e.worker]);
  }

  lemma {:induction false} LoggingStepKeepsSlots(w: World, e: Event)
    requires SlotsHeld(w) && RowsKept(w) && RowLockHeld(w) && Allowed(w, e) && (e.Begin? || e.Commit?)
    ensures SlotsHeld(Apply(w, e))
  {
    hide SlotsHeld, RowsKept;
    var w' := Apply(w, e);
    LoggedIsDue(w, e);
    hide Apply, Allowed, RowLockHeld;
    if w'.attempts != w.attempts {
      AttemptKeepsSlots(w, w', Last(w'.attempts));
    } else {
      SameSlotsHold(w, w');
    }
  }

  lemma {:induction false} StepKeepsSlots(w: World, e: Event)
    requires SlotsHeld(w) && RowsKept(w) && RowLockHeld(w) && Allowed(w, e)
    ensures SlotsHeld(Apply(w, e))
  {
    hide Take, Possible, Rotation, BizIdOf, Pending, RowsKept, Spaced, CandidateOf;
    if e.Begin? || e.Commit? {
      hide Apply, SlotsHeld, RowLockHeld, Allowed;
      LoggingStepKeepsSlots(w, e);
    } else {
      hide RowLockHeld;
      assert Apply(w, e).attempts == w.attempts;
    }
  }

  // ---------- Leases ----------

  ghost predicate LeasesHeld(w: World) {
    && (w.key.Some? ==> w.key.value.request in w.requests && w.key.value.owner < |w.workers|)
    && (forall i :: 0 <= i < |w.workers| && w.workers[i].HasRequest() ==>
          && w.workers[i].request in w.requests
          && (w.key.Some? && w.key.value.request == w.workers[i].request ==> w.key.value.owner == i))
    && (forall i, j :: 0 <= i < j < |w.workers| && w.workers[i].HasRequest() && w.workers[j].HasRequest() ==>
          w.workers[i].request != w.workers[j].request)
  }

  /** A worker that moves on under the request it has, or drops it, disturbs no lease; nor does the end of the lease. */
  lemma {:induction false} MoveKeepsLeases(w: World, w': World, i: nat)
    requires LeasesHeld(w) && i < |w.workers| == |w'.workers| && w'.requests == w.requests
    requires w'.key == w.key || w'.key == None
    requires w'.workers == w.workers[i := w'.workers[i]]
    requires w'.workers[i].HasRequest() ==>
               w.workers[i].HasRequest() && w'.workers[i].request == w.workers[i].request
    ensures LeasesHeld(w')
  {
  }

  lemma {:induction false} AcquireKeepsLeases(w: World, i: nat, request: int)
    requires LeasesHeld(w) && Allowed(w, Acquire(i, request))
    ensures LeasesHeld(Apply(w, Acquire(i, request)))
  {
    hide Due;
  }

  lemma {:induction false} StepKeepsLeases(w: World, e: Event)
    requires LeasesHeld(w) && Allowed(w, e)
    ensures LeasesHeld(Apply(w, e))
  {
    hide Take, Possible, Rotation, BizIdOf, Pending, Due, CandidateOf, Attempted, Dissolved, NothingToSend;
    if e.Acquire? {
      AcquireKeepsLeases(w, e.worker, e.request);
    } else if !e.Expire? && !e.Edit? {
      hide LeasesHeld;
      MoveKeepsLeases(w, Apply(w, e), e.worker);
    }
  }

  // ---------- Deliveries ----------

  function CommittedIds(attempts: seq<LoggedAttempt>): set<string> {
    set k | 0 <= k < |attempts| && attempts[k].sent.Some? :: BizIdOf(attempts[k].sent.value)
  }

  /** The ids in flight: what the transaction holding the row lock sends or has sent. */
  function InFlight(w: World): set<string> {
    if w.rowLock.Some? && w.rowLock.value < |w.workers| && w.workers[w.rowLock.value].InTransaction()
    then {BizIdOf(w.workers[w.rowLock.value].candidate)}
    else {}
  }

  ghost predicate DeliveriesHeld(w: World) {
    && w.delivered <= CommittedIds(w.attempts) + w.orphans + Pending(w.rows)
    && InFlight(w) <= w.orphans + Pending(w.rows)
    && (InFlight(w) != {} && InFlight(w) != Pending(w.rows) ==>
          w.delivered * Pending(w.rows) <= CommittedIds(w.attempts) + w.orphans)
    && |w.orphans| <= w.edits + w.dissolutions
  }

  lemma {:induction false} PendingIsSmall(rows: Rows)
    ensures |Pending(rows)| <= 1
  {
  }

  lemma {:induction false} CommittedIdsOf(attempts: seq<LoggedAttempt>, log: LoggedAttempt)
    ensures CommittedIds(attempts + [log])
         == CommittedIds(attempts) + if log.sent.Some? then {BizIdOf(log.sent.value)} else {}
  {
    var longer := attempts + [log];
    forall k | 0 <= k < |attempts| ensures longer[k] == attempts[k] {
    }
    assert longer[|attempts|] == log;
  }

  lemma {:induction false} OrphansGrowByOne(orphans: set<string>, rows: Rows)
    ensures |orphans + Pending(rows)| <= |orphans| + 1
  {
    var added := Pending(rows) - orphans;
    assert orphans + Pending(rows) == orphans + added;
    if CanSend(rows) {
      assert added <= {BizIdOf(CandidateOf(rows))};
    } else {
      assert added == {};
    }
  }

  /** Deliveries stay accounted for while only the transaction changes: it ends, or takes what is pending in flight. */
  lemma {:induction false} SameDeliveriesHold(w: World, w': World)
    requires DeliveriesHeld(w)
    requires w'.rows == w.rows && w'.attempts == w.attempts && w'.delivered == w.delivered && w'.orphans == w.orphans
    requires w'.edits == w.edits && w'.dissolutions == w.dissolutions
    requires InFlight(w') == InFlight(w) || InFlight(w') == {} || InFlight(w') == Pending(w.rows)
    ensures DeliveriesHeld(w')
  {
    hide Pending, InFlight, CommittedIds;
  }

  lemma {:induction false} QuietStepKeepsTransaction(w: World, e: Event)
    requires RowLockHeld(w) && Allowed(w, e)
    requires e.Expire? || e.List? || e.Acquire? || e.SkipLocked? || e.Release? || e.Rollback? || e.Crash?
    ensures InFlight(Apply(w, e)) == InFlight(w) || InFlight(Apply(w, e)) == {}
  {
    hide Pending, Rotation, Due, CanSend, BizIdOf, Current;
  }

  lemma {:induction false} QuietStepKeepsRecords(w: World, e: Event)
    requires Allowed(w, e)
    requires e.Expire? || e.List? || e.Acquire? || e.SkipLocked? || e.Release? || e.Rollback? || e.Crash?
    ensures var w' := Apply(w, e);
            && w'.rows == w.rows && w'.attempts == w.attempts && w'.delivered == w.delivered
            && w'.orphans == w.orphans && w'.edits == w.edits && w'.dissolutions == w.dissolutions
  {
    hide Due, Possible, Take;
  }

  /** Steps that leave the rows, the deliveries and the transaction alone. */
  lemma {:induction false} QuietStepKeepsDeliveries(w: World, e: Event)
    requires DeliveriesHeld(w) && RowLockHeld(w) && Allowed(w, e)
    requires e.Expire? || e.List? || e.Acquire? || e.SkipLocked? || e.Release? || e.Rollback? || e.Crash?
    ensures DeliveriesHeld(Apply(w, e))
  {
    hide Apply, Allowed, Pending, InFlight, RowLockHeld, DeliveriesHeld;
    QuietStepKeepsTransaction(w, e);
    QuietStepKeepsRecords(w, e);
    SameDeliveriesHold(w, Apply(w, e));
  }

  /** A transaction that commits at once without sending leaves nothing in flight and nothing pending. */
  lemma {:induction false} LoggingBeginLeavesNothing(w: World, i: nat, active: bool)
    requires RowLockHeld(w) && Allowed(w, Begin(i, active))
    requires w.rows.config.Some? && Due(w.rows.config.value, w.workers[i].now) && (!active || Rotation(w.rows) == [])
    ensures var w' := Apply(w, Begin(i, active));
            && InFlight(w') == {} && Pending(w'.rows) == {}
            && (active ==> Pending(w.rows) == {})
  {
    hide BizIdOf, CandidateOf, Current;
    if active {
      assert Apply(w, Begin(i, active)).rows.items == w.rows.items;
    }
  }

  lemma {:induction false} LoggingBeginKeepsDeliveries(w: World, i: nat, active: bool)
    requires DeliveriesHeld(w) && RowLockHeld(w) && Allowed(w, Begin(i, active))
    requires w.rows.config.Some? && Due(w.rows.config.value, w.workers[i].now) && (!active || Rotation(w.rows) == [])
    ensures DeliveriesHeld(Apply(w, Begin(i, active)))
  {
    hide BizIdOf, CandidateOf, Current, Pending, Rotation, InFlight, RowLockHeld;
    var w' := Apply(w, Begin(i, active));
    LoggingBeginLeavesNothing(w, i, active);
    CommittedIdsOf(w.attempts, Last(w'.attempts));
    hide CommittedIds;
    OrphansGrowByOne(w.orphans, w.rows);
    assert CommittedIds(w'.attempts) == CommittedIds(w.attempts);
  }

  lemma {:induction false} QuietBeginKeepsDeliveries(w: World, i: nat, active: bool)
    requires DeliveriesHeld(w) && RowLockHeld(w) && Allowed(w, Begin(i, active))
    requires w.rows.config.None? || !Due(w.rows.config.value, w.workers[i].now)
          || (active && Rotation(w.rows) != [])
    ensures DeliveriesHeld(Apply(w, Begin(i, active)))
  {
    hide Rotation, BizIdOf, CandidateOf, CommittedIds, Current, DeliveriesHeld;
    var w' := Apply(w, Begin(i, active));
    assert InFlight(w') == {} || InFlight(w') == Pending(w.rows);
    hide InFlight, RowLockHeld, Pending, Due;
    SameDeliveriesHold(w, w');
  }

  lemma {:induction false} BeginKeepsDeliveries(w: World, i: nat, active: bool)
    requires DeliveriesHeld(w) && RowLockHeld(w) && Allowed(w, Begin(i, active))
    ensures DeliveriesHeld(Apply(w, Begin(i, active)))
  {
    hide DeliveriesHeld, RowLockHeld, Apply, Due, Rotation;
    if w.rows.config.Some? && Due(w.rows.config.value, w.workers[i].now) && (!active || Rotation(w.rows) == []) {
      LoggingBeginKeepsDeliveries(w, i, active);
    } else {
      QuietBeginKeepsDeliveries(w, i, active);
    }
  }

  lemma {:induction false} SendKeepsDeliveries(w: World, i: nat, accepted: bool, result: SendResult)
    requires DeliveriesHeld(w) && RowLockHeld(w) && Allowed(w, Send(i, accepted, result))
    ensures DeliveriesHeld(Apply(w, Send(i, accepted, result)))
  {
    hide Rotation, BizIdOf, CandidateOf, CommittedIds, Current;
    var w' := Apply(w, Send(i, accepted, result));
    assert InFlight(w') == InFlight(w) == {BizIdOf(w.workers[i].candidate)};
  }

  lemma {:induction false} CommitKeepsDeliveries(w: World, i: nat)
    requires DeliveriesHeld(w) && RowLockHeld(w) && Allowed(w, Commit(i))
    ensures DeliveriesHeld(Apply(w, Commit(i)))
  {
    hide Rotation, BizIdOf, CandidateOf, Attempted, Current;
    var w' := Apply(w, Commit(i));
    CommittedIdsOf(w.attempts, Last(w'.attempts));
    hide CommittedIds;
    assert InFlight(w) == {BizIdOf(w.workers[i].candidate)};
    assert InFlight(w') == {};
    hide Pending;
  }

  lemma {:induction false} EditKeepsDeliveries(w: World, step: Step, now: int)
    requires DeliveriesHeld(w) && RowLockHeld(w) && Allowed(w, Edit(step, now))
    ensures DeliveriesHeld(Apply(w, Edit(step, now)))
  {
    hide Take, Possible, Rotation, BizIdOf, CandidateOf, Current, CommittedIds, Pending, RowLockHeld;
    var w' := Apply(w, Edit(step, now));
    assert InFlight(w') == InFlight(w);
    hide InFlight;
    OrphansGrowByOne(w.orphans, w.rows);
  }

  lemma {:induction false} StepKeepsDeliveries(w: World, e: Event)
    requires DeliveriesHeld(w) && RowLockHeld(w) && Allowed(w, e)
    ensures DeliveriesHeld(Apply(w, e))
  {
    hide DeliveriesHeld, RowLockHeld, Allowed, Apply;
    match e {
      case Begin(i, active) => BeginKeepsDeliveries(w, i, active);
      case Send(i, accepted, result) => SendKeepsDeliveries(w, i, accepted, result);
      case Commit(i) => CommitKeepsDeliveries(w, i);
      case Edit(step, now) => EditKeepsDeliveries(w, step, now);
      case _ => QuietStepKeepsDeliveries(w, e);
    }
  }

  // ---------- What was sent ----------

  function IdsOfSends(sends: seq<Candidate>): set<string> {
    set k | 0 <= k < |sends| :: BizIdOf(sends[k])
  }

  /**
   Everything sent is of this configuration, under the slot its attempt is logged at; what is delivered was
   sent; and a success is claimed only for what the message service accepted.
   */
  ghost predicate SendsHeld(w: World) {
    && w.delivered == IdsOfSends(w.sends)
    && (forall k :: 0 <= k < |w.sends| ==> w.sends[k].configId == w.rows.configId)
    && (forall k :: 0 <= k < |w.attempts| && w.attempts[k].sent.Some? ==>
          && w.attempts[k].sent.value.configId == w.rows.configId
          && w.attempts[k].sent.value.slot == w.attempts[k].slot)
    && (forall k :: 0 <= k < |w.attempts| && w.attempts[k].success ==>
          w.attempts[k].sent.Some? && w.attempts[k].sent.value in w.sends)
    && (forall i :: 0 <= i < |w.workers| && w.workers[i].Answered? && w.workers[i].result.success ==>
          w.workers[i].candidate in w.sends)
  }

  lemma {:induction false} IdsOfMoreSends(sends: seq<Candidate>, c: Candidate)
    ensures IdsOfSends(sends + [c]) == IdsOfSends(sends) + {BizIdOf(c)}
  {
    hide BizIdOf;
    var longer := sends + [c];
    forall k | 0 <= k < |sends| ensures longer[k] == sends[k] {
    }
    assert longer[|sends|] == c;
  }

  lemma {:induction false} SendKeepsSends(w: World, i: nat, accepted: bool, result: SendResult)
    requires SendsHeld(w) && RowLockHeld(w) && Allowed(w, Send(i, accepted, result))
    ensures SendsHeld(Apply(w, Send(i, accepted, result)))
  {
    hide BizIdOf, IdsOfSends, Due;
    assert Current(w, w.workers[i]);
    IdsOfMoreSends(w.sends, w.workers[i].candidate);
  }

  lemma {:induction false} CommitKeepsSends(w: World, i: nat)
    requires SendsHeld(w) && RowLockHeld(w) && Allowed(w, Commit(i))
    ensures SendsHeld(Apply(w, Commit(i)))
  {
    hide BizIdOf, IdsOfSends, Due;
    assert Current(w, w.workers[i]);
  }

  lemma {:induction false} QuietStepKeepsSends(w: World, e: Event)
    requires SendsHeld(w) && Allowed(w, e) && !e.Send? && !e.Commit?
    ensures SendsHeld(Apply(w, e))
  {
    hide Take, Possible, Rotation, BizIdOf, Pending, Due, CandidateOf, IdsOfSends;
    if e.Edit? {
      EditKeepsConfigId(w.rows, e.step, e.now);
    }
  }

  lemma {:induction false} StepKeepsSends(w: World, e: Event)
    requires SendsHeld(w) && RowLockHeld(w) && Allowed(w, e)
    ensures SendsHeld(Apply(w, e))
  {
    hide SendsHeld, RowLockHeld, Allowed, Apply;
    match e {
      case Send(i, accepted, result) => SendKeepsSends(w, i, accepted, result);
      case Commit(i) => CommitKeepsSends(w, i);
      case _ => QuietStepKeepsSends(w, e);
    }
  }

  // ---------- The log ----------

  /** A log row shows an attempt. */
  ghost predicate Shows(log: Log, attempt: LoggedAttempt) {
    && log.sentAt == attempt.sentAt
    && log.status == (if attempt.success then SUCCESS else FAILED)
    && (attempt.sent == None ==> log.itemId == 0 && log.sendIndex == 0)
    && (attempt.sent.Some? ==>
          && log.itemId == attempt.sent.value.item.id && log.sendIndex == attempt.sent.value.index + 1
          && log.content == attempt.sent.value.item.content)
  }

  /** After the rows it began with, the log shows the attempts, one for one. */
  ghost predicate LogShown(w: World, before: seq<Log>) {
    && before <= w.rows.logs
    && |w.rows.logs| == |before| + |w.attempts|
    && (forall k :: 0 <= k < |w.attempts| ==> Shows(w.rows.logs[|before| + k], w.attempts[k]))
  }

  lemma {:induction false} LoggedIsShown(w: World, e: Event)
    requires Allowed(w, e) && (e.Begin? || e.Commit?) && Apply(w, e).attempts != w.attempts
    ensures Apply(w, e).attempts != [] && Apply(w, e).rows.logs != []
    ensures Shows(Last(Apply(w, e).rows.logs), Last(Apply(w, e).attempts))
  {
    hide Rotation, BizIdOf, Pending, CandidateOf, Due;
  }

  lemma {:induction false} LoggingStepKeepsLog(w: World, e: Event, before: seq<Log>)
    requires LogShown(w, before) && RowLockHeld(w) && Allowed(w, e) && (e.Begin? || e.Commit?)
    ensures LogShown(Apply(w, e), before)
  {
    hide Rotation, BizIdOf, Pending, CandidateOf, Due, Shows;
    var w' := Apply(w, e);
    if w'.attempts != w.attempts {
      assert w'.attempts == w.attempts + [Last(w'.attempts)];
      assert w'.rows.logs == w.rows.logs + [Last(w'.rows.logs)];
      LoggedIsShown(w, e);
    }
  }

  lemma {:induction false} EditKeepsLog(rows: Rows, step: Step, now: int)
    requires Possible(rows, step) && !step.Attempt?
    ensures Take(rows, step, now).1.logs == rows.logs
  {
    hide SaveInputs, SortInputs, Rotation, ParamsError, InputError;
  }

  lemma {:induction false} StepKeepsLog(w: World, e: Event, before: seq<Log>)
    requires LogShown(w, before) && RowLockHeld(w) && Allowed(w, e)
    ensures LogShown(Apply(w, e), before)
  {
    if e.Begin? || e.Commit? {
      hide LogShown, RowLockHeld, Allowed, Apply;
      LoggingStepKeepsLog(w, e, before);
    } else {
      hide Take, Rotation, BizIdOf, Pending, CandidateOf, Due, Shows, RowLockHeld;
      if e.Edit? {
        EditKeepsLog(w.rows, e.step, e.now);
      }
    }
  }
}
