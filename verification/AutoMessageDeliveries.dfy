/**
 What the message service keeps, when it keeps one message for each business id: ids tell attempts apart, so
 it recognises replays and nothing else.
 */
module AutoMessageDeliveries {
  import opened Prelude
  import opened AutoMessageRows
  import opened AutoMessageBizId
  import opened AutoMessageService
  import opened AutoMessageScheduler
  import opened AutoMessageSafety
  import opened AutoMessageSlots

  // ---------- Ids ----------

  /** Sent for the same slot, index and item. */
  predicate IsReplay(a: Candidate, b: Candidate) {
    a.slot == b.slot && a.index == b.index && a.item.id == b.item.id
  }

  /** Two candidates of one configuration have the same id exactly when slot, index and item are the same. */
  lemma {:induction false} IdsMatchIff(a: Candidate, b: Candidate)
    requires a.configId == b.configId
    ensures BizIdOf(a) == BizIdOf(b) <==> IsReplay(a, b)
  {
    hide BizId;
    if BizIdOf(a) == BizIdOf(b) {
      BizIdIsInjective(a.configId, a.slot, a.index, a.item.id, b.configId, b.slot, b.index, b.item.id);
    }
  }

  ghost predicate BothSent(w: World, k: nat, l: nat) {
    k < |w.attempts| && l < |w.attempts| && w.attempts[k].sent.Some? && w.attempts[l].sent.Some?
  }

  /**
   Over every run, two attempts that sent something sent it under one id exactly when they are at one slot with
   the same index and item: this is when a repeated slot reuses a committed id.
   */
  lemma {:induction false} SentIdsMatchIff(rows: Rows, workers: nat, events: seq<Event>, k: nat, l: nat)
    requires Kept(rows) && AllowedRun(Start(rows, workers), events)
    requires BothSent(Run(Start(rows, workers), events), k, l)
    ensures var attempts := Run(Start(rows, workers), events).attempts;
            var a, b := attempts[k].sent.value, attempts[l].sent.value;
            && (BizIdOf(a) == BizIdOf(b) <==> IsReplay(a, b))
            && a.slot == attempts[k].slot && b.slot == attempts[l].slot
  {
    hide AllowedRun, Start, Run, RowLockHeld, RowsKept, SlotsHeld, LeasesHeld, DeliveriesHeld, BizIdOf, IdsOfSends;
    ReachableHolds(rows, workers, events);
    var w := Run(Start(rows, workers), events);
    IdsMatchIff(w.attempts[k].sent.value, w.attempts[l].sent.value);
  }

  /** Between configuration edits, no id is sent by two attempts. */
  lemma {:induction false} SentIdsDiffer(rows: Rows, workers: nat, events: seq<Event>, k: nat, l: nat)
    requires Kept(rows) && AllowedRun(Start(rows, workers), events)
    requires BothSent(Run(Start(rows, workers), events), k, l) && k < l
    requires var attempts := Run(Start(rows, workers), events).attempts;
             attempts[k].epoch == attempts[l].epoch
    ensures var attempts := Run(Start(rows, workers), events).attempts;
            BizIdOf(attempts[k].sent.value) != BizIdOf(attempts[l].sent.value)
  {
    hide AllowedRun, Start, Run, BizIdOf;
    OneAttemptPerSlot(rows, workers, events, k, l);
    SentIdsMatchIff(rows, workers, events, k, l);
  }

  /** With timely edits, no id is sent by two attempts of a whole run. */
  lemma {:induction false} TimelySentIdsDiffer(
      rows: Rows, workers: nat, events: seq<Event>, k: nat, l: nat)
    requires Kept(rows) && AllowedRun(Start(rows, workers), events)
    requires TimelyRun(Start(rows, workers), events)
    requires BothSent(Run(Start(rows, workers), events), k, l) && k != l
    ensures var attempts := Run(Start(rows, workers), events).attempts;
            BizIdOf(attempts[k].sent.value) != BizIdOf(attempts[l].sent.value)
  {
    hide AllowedRun, TimelyRun, Start, Run, BizIdOf;
    if k < l {
      SlotsIncreaseAcrossEdits(rows, workers, events, k, l);
    } else {
      SlotsIncreaseAcrossEdits(rows, workers, events, l, k);
    }
    SentIdsMatchIff(rows, workers, events, k, l);
  }

  // ---------- Recognised sends ----------

  /** No logged attempt has this slot. */
  ghost predicate SlotIsUnlogged(w: World, slot: int) {
    forall k :: 0 <= k < |w.attempts| ==> w.attempts[k].slot != slot
  }

  lemma {:induction false} UnloggedIdIsUncommitted(w: World, c: Candidate)
    requires SendsHeld(w) && c.configId == w.rows.configId && SlotIsUnlogged(w, c.slot)
    ensures BizIdOf(c) !in CommittedIds(w.attempts)
  {
    hide BizIdOf, IdsOfSends;
    forall k | 0 <= k < |w.attempts| && w.attempts[k].sent.Some?
      ensures BizIdOf(w.attempts[k].sent.value) != BizIdOf(c) {
      IdsMatchIff(w.attempts[k].sent.value, c);
    }
  }

  lemma {:induction false} NextSlotIsUnlogged(w: World)
    requires SlotsIncrease(w) && w.rows.config.Some? && w.rows.config.value.nextSendAt.Some?
    ensures SlotIsUnlogged(w, w.rows.config.value.nextSendAt.value)
  {
    forall k | 0 <= k < |w.attempts| ensures w.attempts[k].slot < w.rows.config.value.nextSendAt.value {
      assert w.attempts[k].slot <= Last(w.attempts).slot;
    }
  }

  lemma {:induction false} PendingIsUncommitted(w: World)
    requires SendsHeld(w) && SlotsIncrease(w)
    ensures Pending(w.rows) !! CommittedIds(w.attempts)
  {
    hide BizIdOf, IdsOfSends, CommittedIds;
    if CanSend(w.rows) {
      NextSlotIsUnlogged(w);
      hide Rotation, SlotsIncrease;
      UnloggedIdIsUncommitted(w, CandidateOf(w.rows));
    }
  }

  /** Without any condition on edits, it is none of the ids committed since the last configuration edit. */
  lemma {:induction false} PendingIsNewSinceEdit(
      rows: Rows, workers: nat, events: seq<Event>, k: nat)
    requires Kept(rows) && AllowedRun(Start(rows, workers), events)
    requires var w := Run(Start(rows, workers), events);
             && k < |w.attempts| && w.attempts[k].sent.Some?
             && w.attempts[k].epoch == w.configEdits
    ensures var w := Run(Start(rows, workers), events);
            BizIdOf(w.attempts[k].sent.value) !in Pending(w.rows)
  {
    hide AllowedRun, Start, Run, RowLockHeld, LeasesHeld, DeliveriesHeld, BizIdOf, IdsOfSends, Rotation, Spaced;
    ReachableHolds(rows, workers, events);
    var w := Run(Start(rows, workers), events);
    if CanSend(w.rows) {
      assert w.attempts[k].slot < w.rows.config.value.nextSendAt.value;
      IdsMatchIff(w.attempts[k].sent.value, CandidateOf(w.rows));
    }
  }

  /**
   Deduplication recognises replays only. With timely edits, whatever a transaction sends is at a slot no
   attempt is logged at; and if the message service has a message under its id already, it was sent for the
   same slot, index and item by a transaction that was not committed.
   */
  lemma {:induction false} OnlyReplaysAreRecognised(
      rows: Rows, workers: nat, events: seq<Event>, i: nat)
    requires Kept(rows) && AllowedRun(Start(rows, workers), events)
    requires TimelyRun(Start(rows, workers), events)
    requires var w := Run(Start(rows, workers), events);
             i < |w.workers| && w.workers[i].Sending?
    ensures var w := Run(Start(rows, workers), events);
            var c := w.workers[i].candidate;
            && SlotIsUnlogged(w, c.slot)
            && BizIdOf(c) !in CommittedIds(w.attempts)
            && (BizIdOf(c) in w.delivered ==>
                  exists k :: 0 <= k < |w.sends| && IsReplay(w.sends[k], c))
  {
    hide AllowedRun, TimelyRun, Start, Run, RowsKept, SlotsHeld, LeasesHeld, DeliveriesHeld, BizIdOf;
    TimelyReachable(rows, workers, events);
    ReachableHolds(rows, workers, events);
    var w := Run(Start(rows, workers), events);
    var c := w.workers[i].candidate;
    assert Current(w, w.workers[i]);
    hide RowLockHeld;
    NextSlotIsUnlogged(w);
    UnloggedIdIsUncommitted(w, c);
    hide SlotsIncrease, SlotIsUnlogged, CommittedIds;
    if BizIdOf(c) in w.delivered {
      var k :| 0 <= k < |w.sends| && BizIdOf(w.sends[k]) == BizIdOf(c);
      IdsMatchIff(w.sends[k], c);
    }
  }

  lemma {:induction false} SendIsKept(w: World, c: Candidate)
    requires SendsHeld(w) && c in w.sends
    ensures BizIdOf(c) in w.delivered
  {
    hide BizIdOf;
    var k :| 0 <= k < |w.sends| && w.sends[k] == c;
    assert BizIdOf(w.sends[k]) in IdsOfSends(w.sends);
  }

  /**
   Every success in the log was accepted when it was sent, and the message service keeps a message for it that
   was sent for its own slot, index and item. With timely edits no other attempt sent that id, so the message is
   the attempt's own.
   */
  lemma {:induction false} LoggedSuccessesWereDelivered(
      rows: Rows, workers: nat, events: seq<Event>, k: nat)
    requires Kept(rows) && AllowedRun(Start(rows, workers), events)
    requires k < |Run(Start(rows, workers), events).attempts|
    requires Run(Start(rows, workers), events).attempts[k].success
    ensures var w := Run(Start(rows, workers), events);
            && w.attempts[k].sent.Some?
            && w.attempts[k].sent.value in w.sends
            && BizIdOf(w.attempts[k].sent.value) in w.delivered
            && (forall c :: c in w.sends && BizIdOf(c) == BizIdOf(w.attempts[k].sent.value) ==>
                  IsReplay(c, w.attempts[k].sent.value) && c.slot == w.attempts[k].slot)
            && (TimelyRun(Start(rows, workers), events) ==>
                  forall l: nat :: l != k && BothSent(w, k, l) ==>
                    BizIdOf(w.attempts[l].sent.value) != BizIdOf(w.attempts[k].sent.value))
  {
    hide AllowedRun, TimelyRun, Start, Run, RowLockHeld, RowsKept, SlotsHeld, LeasesHeld, DeliveriesHeld, BizIdOf;
    ReachableHolds(rows, workers, events);
    var w := Run(Start(rows, workers), events);
    var own := w.attempts[k].sent.value;
    SendIsKept(w, own);
    hide IdsOfSends;
    forall c | c in w.sends && BizIdOf(c) == BizIdOf(own) ensures IsReplay(c, own) {
      IdsMatchIff(c, own);
    }
    if TimelyRun(Start(rows, workers), events) {
      forall l: nat | l != k && BothSent(w, k, l) ensures BizIdOf(w.attempts[l].sent.value) != BizIdOf(own) {
        TimelySentIdsDiffer(rows, workers, events, l, k);
      }
    }
  }

  // ---------- Deliveries and attempts ----------

  /**
   Every delivered id belongs to a committed attempt, is the one the next attempt would send, or was
   orphaned by an edit or a dissolution, which orphan at most one each. Without edits and dissolutions at
   most one delivery is ever ahead of the log, and it is the one the next attempt repeats. With timely edits
   that one is none of the committed ones.
   */
  lemma {:induction false} DeliveriesStayWithinAttempts(rows: Rows, workers: nat, events: seq<Event>)
    requires Kept(rows) && AllowedRun(Start(rows, workers), events)
    ensures var w := Run(Start(rows, workers), events);
            && w.delivered <= CommittedIds(w.attempts) + w.orphans + Pending(w.rows)
            && |w.orphans| <= w.edits + w.dissolutions
            && |Pending(w.rows)| <= 1
            && (w.edits + w.dissolutions == 0 ==> w.delivered - CommittedIds(w.attempts) <= Pending(w.rows))
            && (TimelyRun(Start(rows, workers), events) ==> Pending(w.rows) !! CommittedIds(w.attempts))
  {
    ReachableHolds(rows, workers, events);
    hide AllowedRun, TimelyRun, Start, Run, RowLockHeld, RowsKept, LeasesHeld, SlotsHeld,
         SendsHeld, CommittedIds, SlotsIncrease;
    if TimelyRun(Start(rows, workers), events) {
      TimelyReachable(rows, workers, events);
      PendingIsUncommitted(Run(Start(rows, workers), events));
    }
    var w := Run(Start(rows, workers), events);
    PendingIsSmall(w.rows);
    hide Pending;
    if w.edits + w.dissolutions == 0 {
      assert w.orphans == {};
    }
  }
}
