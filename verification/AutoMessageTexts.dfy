/**
 The text the message service keeps and the text the log shows. They agree as long as no edit changes a text that
 was sent and is not logged yet.
 */
module AutoMessageTexts {
  import opened Prelude
  import opened AutoMessageRows
  import opened AutoMessageListing
  import opened AutoMessageEdits
  import opened AutoMessageService
  import opened AutoMessageScheduler
  import opened AutoMessageSafety
  import opened AutoMessageSlots
  import opened AutoMessageDeliveries
  import opened AutoMessageReplays

  // ---------- Item rows under edits ----------

  /** Rows keep their ids and stay deleted once they are; new rows have new ids. */
  ghost predicate RowsGrow(before: seq<Item>, after: seq<Item>) {
    && |before| <= |after|
    && (forall p :: 0 <= p < |before| ==> after[p].id == before[p].id && (before[p].deleted ==> after[p].deleted))
    && (forall p, q :: 0 <= p < |before| <= q < |after| ==> before[p].id != after[q].id)
  }

  lemma {:induction false} SaveGrowsRows(rows: Rows, params: SaveParams, now: int, ids: seq<int>)
    requires |ids| == |params.items| && FreshIds(rows.items, ids) && Saved(rows, params, now, ids).Ok?
    ensures RowsGrow(rows.items, Saved(rows, params, now, ids).value.items)
  {
    SavedRows(rows, params, now, ids);
    InsertedIds(params.items, ids, |params.items|);
    hide Saved, RowAfter, Names;
  }

  lemma {:induction false} SortGrowsRows(rows: Rows, ids: seq<int>)
    requires DistinctIds(rows.items)
    ensures RowsGrow(rows.items, Sorted(rows, ids).1.items)
  {
    SortRuns(rows, ids);
    hide Placed, SortInputs, ListItems, Rotation, DistinctIds, Stored, NoDuplicates;
  }

  lemma {:induction false} RowEditsGrowRows(rows: Rows, id: int, input: ItemInput, restamped: bool)
    ensures RowsGrow(rows.items, Updated(rows, id, input, restamped).1.items)
    ensures RowsGrow(rows.items, Deleted(rows, id).1.items)
  {
    hide Rotation, Changes, Affects;
  }

  lemma {:induction false} EditGrowsRows(rows: Rows, step: Step, now: int)
    requires Possible(rows, step) && DistinctIds(rows.items)
    ensures RowsGrow(rows.items, Take(rows, step, now).1.items)
  {
    hide Saved, Sorted, Updated, Deleted, DistinctIds, ParamsError, InputError, Rotation, Live, NormalizedInput;
    match step {
      case SaveConfig(params, ids) =>
        if Saved(rows, NormalizedParams(params), now, ids).Ok? {
          SaveGrowsRows(rows, NormalizedParams(params), now, ids);
        }
      case AddItem(input, id) =>
        assert [id][0] == id;
      case UpdateItem(id, input, restamped) =>
        RowEditsGrowRows(rows, id, NormalizedInput(input), restamped);
      case DeleteItem(id) =>
        RowEditsGrowRows(rows, id, ItemInput(0, 0, "", "", false), false);
      case SortItems(ids) =>
        SortGrowsRows(rows, ids);
      case _ =>
    }
  }

  // ---------- The invariant ----------

  /** The live row of the candidate's item, if there is one, has the candidate's text. */
  ghost predicate HasText(items: seq<Item>, c: Candidate) {
    forall i :: 0 <= i < |items| && items[i].id == c.item.id && !items[i].deleted ==> items[i].content == c.item.content
  }

  /** What was sent at a slot no attempt is logged at, and what a transaction is about to send or has sent. */
  ghost predicate Unlogged(w: World, c: Candidate) {
    || (c in w.sends && SlotIsUnlogged(w, c.slot))
    || exists i :: 0 <= i < |w.workers| && w.workers[i].InTransaction() && w.workers[i].candidate == c
  }

  /** Every send for the same slot, index and item has the same text. */
  ghost predicate SentAlike(w: World, c: Candidate) {
    forall other :: other in w.sends && IsReplay(other, c) ==> other.item.content == c.item.content
  }

  ghost predicate UnloggedAgree(w: World) {
    forall c :: Unlogged(w, c) ==> Stored(w.rows.items, c.item.id) && HasText(w.rows.items, c)
  }

  ghost predicate InFlightAgrees(w: World) {
    forall i :: 0 <= i < |w.workers| && w.workers[i].InTransaction() ==> SentAlike(w, w.workers[i].candidate)
  }

  ghost predicate LoggedAgree(w: World) {
    forall k :: 0 <= k < |w.attempts| && w.attempts[k].success ==>
      w.attempts[k].sent.Some? && SentAlike(w, w.attempts[k].sent.value)
  }

  ghost predicate TextsAgree(w: World) {
    UnloggedAgree(w) && InFlightAgrees(w) && LoggedAgree(w)
  }

  // ---------- Edits ----------

  /** Both tables have the item live, with the same text, or one of them does not have it live. */
  ghost predicate SameText(before: seq<Item>, after: seq<Item>, id: int) {
    forall i, j ::
      && 0 <= i < |before| && before[i].id == id && !before[i].deleted
      && 0 <= j < |after| && after[j].id == id && !after[j].deleted ==>
        before[i].content == after[j].content
  }

  /** The edit leaves the text of every item that was sent, or is being sent, and is not logged. */
  ghost predicate LeavesTexts(w: World, step: Step, now: int)
    requires Possible(w.rows, step)
  {
    forall c :: Unlogged(w, c) ==> SameText(w.rows.items, Take(w.rows, step, now).1.items, c.item.id)
  }

  lemma {:induction false} TextStaysIff(before: seq<Item>, after: seq<Item>, c: Candidate)
    requires RowsGrow(before, after) && Stored(before, c.item.id) && HasText(before, c)
    ensures Stored(after, c.item.id)
    ensures HasText(after, c) <==> SameText(before, after, c.item.id)
  {
    var p :| 0 <= p < |before| && before[p].id == c.item.id;
    assert after[p].id == c.item.id;
    if SameText(before, after, c.item.id) {
      forall j | 0 <= j < |after| && after[j].id == c.item.id && !after[j].deleted
        ensures after[j].content == c.item.content
      {
        assert j < |before|;
        assert before[j].id == c.item.id && !before[j].deleted;
      }
    }
  }

  lemma {:induction false} EditKeepsClaims(w: World, step: Step, now: int)
    requires Allowed(w, Edit(step, now))
    ensures var next := Apply(w, Edit(step, now));
            && next.rows == Take(w.rows, step, now).1
            && next.sends == w.sends && next.workers == w.workers && next.attempts == w.attempts
  {
    hide Take, Possible, Pending;
  }

  lemma {:induction false} SameClaims(w: World, next: World)
    requires next.sends == w.sends && next.workers == w.workers && next.attempts == w.attempts
    ensures forall c :: Unlogged(next, c) <==> Unlogged(w, c)
    ensures InFlightAgrees(next) <==> InFlightAgrees(w)
    ensures LoggedAgree(next) <==> LoggedAgree(w)
  {
    forall c ensures SentAlike(next, c) <==> SentAlike(w, c) {
    }
    hide SentAlike;
  }

  /** An edit keeps the texts in agreement exactly when it leaves the texts that were sent and are not logged. */
  lemma {:induction false} EditKeepsTextsIff(w: World, step: Step, now: int)
    requires RowsKept(w) && TextsAgree(w) && Allowed(w, Edit(step, now))
    ensures TextsAgree(Apply(w, Edit(step, now))) <==> LeavesTexts(w, step, now)
  {
    var next := Apply(w, Edit(step, now));
    EditKeepsClaims(w, step, now);
    SameClaims(w, next);
    EditGrowsRows(w.rows, step, now);
    hide Apply, Take, Allowed, InFlightAgrees, LoggedAgree, Unlogged, RowsGrow, HasText, SameText, Stored;
    forall c | Unlogged(w, c)
      ensures Stored(next.rows.items, c.item.id)
      ensures HasText(next.rows.items, c) <==> SameText(w.rows.items, next.rows.items, c.item.id)
    {
      TextStaysIff(w.rows.items, next.rows.items, c);
    }
  }

  // ---------- Other steps ----------

  /** A step that claims nothing new and forgets nothing that was sent. */
  lemma {:induction false} FewerClaimsAgree(w: World, next: World)
    requires TextsAgree(w)
    requires next.rows.items == w.rows.items && next.sends == w.sends
    requires forall c :: Unlogged(next, c) ==> Unlogged(w, c)
    requires forall i :: 0 <= i < |next.workers| && next.workers[i].InTransaction() ==>
               && i < |w.workers| && w.workers[i].InTransaction()
               && next.workers[i].candidate == w.workers[i].candidate
    requires forall k :: 0 <= k < |next.attempts| && next.attempts[k].success ==>
               || (k < |w.attempts| && next.attempts[k] == w.attempts[k])
               || (next.attempts[k].sent.Some? && SentAlike(w, next.attempts[k].sent.value))
    ensures TextsAgree(next)
  {
    forall c ensures SentAlike(next, c) <==> SentAlike(w, c) {
    }
    hide SentAlike, Unlogged, HasText, Stored;
  }

  lemma {:induction false} QuietStepFrame(w: World, e: Event)
    requires Allowed(w, e) && !e.Edit? && !e.Begin? && !e.Send? && !e.Commit?
    ensures var next := Apply(w, e);
            && next.rows == w.rows && next.sends == w.sends && next.attempts == w.attempts
            && |next.workers| == |w.workers|
            && forall i :: 0 <= i < |next.workers| && next.workers[i].InTransaction() ==>
                 w.workers[i].InTransaction() && next.workers[i].candidate == w.workers[i].candidate
  {
    hide Due, Possible, Take;
  }

  lemma {:induction false} QuietStepKeepsTexts(w: World, e: Event)
    requires TextsAgree(w) && Allowed(w, e) && !e.Edit? && !e.Begin? && !e.Send? && !e.Commit?
    ensures TextsAgree(Apply(w, e))
  {
    QuietStepFrame(w, e);
    hide Apply, Allowed, TextsAgree;
    FewerClaimsAgree(w, Apply(w, e));
  }

  lemma {:induction false} CommitKeepsTexts(w: World, i: nat)
    requires TextsAgree(w) && RowLockHeld(w) && Allowed(w, Commit(i))
    ensures TextsAgree(Apply(w, Commit(i)))
  {
    var next := Apply(w, Commit(i));
    var c := w.workers[i].candidate;
    assert SentAlike(w, c);
    assert next.attempts[..|w.attempts|] == w.attempts && Last(next.attempts).sent == Some(c);
    hide TextsAgree, RowLockHeld, BizIdOf, Due, SentAlike;
    FewerClaimsAgree(w, next);
  }

  lemma {:induction false} PendingTextIsStored(rows: Rows)
    requires CanSend(rows) && DistinctIds(rows.items)
    ensures var c := CandidateOf(rows);
            && Stored(rows.items, c.item.id) && HasText(rows.items, c)
            && exists i :: 0 <= i < |rows.items| && rows.items[i] == c.item && !c.item.deleted
  {
    RotationIsStored(rows, ClampedIndex(rows.config.value.currentIndex, |Rotation(rows)|));
    hide Rotation;
    var c := CandidateOf(rows);
    var i :| 0 <= i < |rows.items| && rows.items[i] == c.item;
  }

  /** What was sent under the pending slot, index and item has the pending text. */
  lemma {:induction false} PendingIsSentAlike(w: World)
    requires UnloggedAgree(w) && SlotsIncrease(w) && RowsKept(w) && CanSend(w.rows)
    ensures SentAlike(w, CandidateOf(w.rows))
  {
    var c := CandidateOf(w.rows);
    PendingTextIsStored(w.rows);
    NextSlotIsUnlogged(w);
    hide Rotation, SlotsIncrease, SlotIsUnlogged, Kept;
    forall other | other in w.sends && IsReplay(other, c) ensures other.item.content == c.item.content {
      assert Unlogged(w, other);
      var i :| 0 <= i < |w.rows.items| && w.rows.items[i] == c.item;
    }
  }

  lemma {:induction false} LoggingBeginKeepsTexts(w: World, i: nat, active: bool)
    requires TextsAgree(w) && RowLockHeld(w) && Allowed(w, Begin(i, active))
    requires Apply(w, Begin(i, active)).rowLock == None
    ensures TextsAgree(Apply(w, Begin(i, active)))
  {
    var next := Apply(w, Begin(i, active));
    assert next.rows.items == w.rows.items && next.sends == w.sends;
    assert forall k :: 0 <= k < |next.attempts| && next.attempts[k].success ==>
                         k < |w.attempts| && next.attempts[k] == w.attempts[k];
    assert forall k :: 0 <= k < |w.attempts| ==> k < |next.attempts| && next.attempts[k] == w.attempts[k];
    hide TextsAgree, Rotation, Pending, CandidateOf, Due, BizIdOf, SentAlike, Dissolved, NothingToSend;
    FewerClaimsAgree(w, next);
  }

  lemma {:induction false} SendingBegin(w: World, i: nat, active: bool)
    requires RowLockHeld(w) && Allowed(w, Begin(i, active)) && Apply(w, Begin(i, active)).rowLock != None
    ensures CanSend(w.rows)
    ensures var next := Apply(w, Begin(i, active));
            && next.rows == w.rows && next.sends == w.sends && next.attempts == w.attempts
            && |next.workers| == |w.workers|
            && next.workers[i].InTransaction() && next.workers[i].candidate == CandidateOf(w.rows)
            && forall j :: 0 <= j < |next.workers| && j != i ==> !next.workers[j].InTransaction()
  {
    hide Rotation, Pending, CandidateOf, BizIdOf, Current;
  }

  lemma {:induction false} SendingBeginKeepsTexts(w: World, i: nat, active: bool)
    requires TextsAgree(w) && RowLockHeld(w) && RowsKept(w) && SlotsIncrease(w)
    requires Allowed(w, Begin(i, active)) && Apply(w, Begin(i, active)).rowLock != None
    ensures TextsAgree(Apply(w, Begin(i, active)))
  {
    SendingBegin(w, i, active);
    PendingTextIsStored(w.rows);
    PendingIsSentAlike(w);
    var next := Apply(w, Begin(i, active));
    forall c ensures SentAlike(next, c) <==> SentAlike(w, c) {
    }
    hide Apply, Allowed, RowLockHeld, Rotation, CandidateOf, SlotsIncrease, SentAlike, HasText, Stored, SlotIsUnlogged,
         Kept;
    forall c | Unlogged(next, c) ensures Unlogged(w, c) || c == CandidateOf(w.rows) {
    }
    hide Unlogged;
  }

  lemma {:induction false} SendFrame(w: World, i: nat, accepted: bool, result: SendResult)
    requires RowLockHeld(w) && Allowed(w, Send(i, accepted, result))
    ensures var next := Apply(w, Send(i, accepted, result));
            var c := w.workers[i].candidate;
            && w.workers[i].InTransaction()
            && next.rows == w.rows && next.attempts == w.attempts && |next.workers| == |w.workers|
            && next.sends == (if accepted then w.sends + [c] else w.sends)
            && (forall j :: 0 <= j < |next.workers| && next.workers[j].InTransaction() ==>
                  w.workers[j].InTransaction() && next.workers[j].candidate == w.workers[j].candidate == c)
  {
    hide BizIdOf, Current;
  }

  lemma {:induction false} SentIsUnlogged(w: World, i: nat)
    requires RowLockHeld(w) && SlotsIncrease(w) && i < |w.workers| && w.workers[i].InTransaction()
    ensures SlotIsUnlogged(w, w.workers[i].candidate.slot)
  {
    assert Current(w, w.workers[i]);
    NextSlotIsUnlogged(w);
    hide SlotsIncrease, SlotIsUnlogged;
  }

  lemma {:induction false} SentIsNoLoggedReplay(w: World, c: Candidate, k: nat)
    requires SendsHeld(w) && SlotIsUnlogged(w, c.slot) && k < |w.attempts| && w.attempts[k].success
    ensures w.attempts[k].sent.Some? && !IsReplay(c, w.attempts[k].sent.value)
  {
    hide BizIdOf, IdsOfSends;
  }

  /** One more send of a candidate that was sent with no other text, and of no logged success. */
  lemma {:induction false} OneMoreSendAgrees(w: World, next: World, c: Candidate)
    requires TextsAgree(w) && Unlogged(w, c) && SentAlike(w, c)
    requires next.rows.items == w.rows.items && next.attempts == w.attempts && next.sends == w.sends + [c]
    requires forall d :: Unlogged(next, d) ==> Unlogged(w, d)
    requires forall i :: 0 <= i < |next.workers| && next.workers[i].InTransaction() ==> next.workers[i].candidate == c
    requires forall k :: 0 <= k < |w.attempts| && w.attempts[k].success ==>
               w.attempts[k].sent.Some? && !IsReplay(c, w.attempts[k].sent.value)
    ensures TextsAgree(next)
  {
    hide Unlogged, HasText, Stored;
    forall d | SentAlike(w, d) && (IsReplay(c, d) ==> c.item.content == d.item.content) ensures SentAlike(next, d) {
    }
    hide SentAlike;
  }

  lemma {:induction false} AcceptedClaimsNothingNew(w: World, i: nat, result: SendResult)
    requires RowLockHeld(w) && SlotsIncrease(w) && Allowed(w, Send(i, true, result))
    ensures Unlogged(w, w.workers[i].candidate)
    ensures forall d :: Unlogged(Apply(w, Send(i, true, result)), d) ==> Unlogged(w, d)
  {
    SendFrame(w, i, true, result);
    SentIsUnlogged(w, i);
    hide Apply, Allowed, RowLockHeld, SlotsIncrease;
  }

  lemma {:induction false} AcceptedKeepsTexts(w: World, i: nat, result: SendResult)
    requires TextsAgree(w) && RowLockHeld(w) && SendsHeld(w) && SlotsIncrease(w)
    requires Allowed(w, Send(i, true, result))
    ensures TextsAgree(Apply(w, Send(i, true, result)))
  {
    var c := w.workers[i].candidate;
    SendFrame(w, i, true, result);
    SentIsUnlogged(w, i);
    AcceptedClaimsNothingNew(w, i, result);
    assert SentAlike(w, c);
    hide Apply, Allowed, RowLockHeld, SendsHeld, SlotsIncrease, TextsAgree, Unlogged, SentAlike, SlotIsUnlogged;
    forall k | 0 <= k < |w.attempts| && w.attempts[k].success
      ensures w.attempts[k].sent.Some? && !IsReplay(c, w.attempts[k].sent.value)
    {
      SentIsNoLoggedReplay(w, c, k);
    }
    OneMoreSendAgrees(w, Apply(w, Send(i, true, result)), c);
  }

  lemma {:induction false} RefusedKeepsTexts(w: World, i: nat, result: SendResult)
    requires TextsAgree(w) && RowLockHeld(w) && Allowed(w, Send(i, false, result))
    ensures TextsAgree(Apply(w, Send(i, false, result)))
  {
    SendFrame(w, i, false, result);
    hide Apply, Allowed, TextsAgree, RowLockHeld, SentAlike;
    FewerClaimsAgree(w, Apply(w, Send(i, false, result)));
  }

  ghost predicate LeavesTextsEvent(w: World, e: Event)
    requires Allowed(w, e)
  {
    e.Edit? ==> LeavesTexts(w, e.step, e.now)
  }

  /** Every step but an edit of a text that was sent and is not logged keeps the texts in agreement. */
  lemma {:induction false} StepKeepsTextsIff(w: World, e: Event)
    requires Invariant(w) && SlotsIncrease(w) && TextsAgree(w) && Allowed(w, e)
    ensures TextsAgree(Apply(w, e)) <==> LeavesTextsEvent(w, e)
  {
    hide SlotsIncrease, Apply, TextsAgree, LeavesTexts, SlotsHeld, LeasesHeld, DeliveriesHeld, SendsHeld, RowLockHeld,
         RowsKept;
    match e {
      case Edit(step, now) => EditKeepsTextsIff(w, step, now);
      case Begin(i, active) =>
        if Apply(w, e).rowLock == None {
          LoggingBeginKeepsTexts(w, i, active);
        } else {
          SendingBeginKeepsTexts(w, i, active);
        }
      case Send(i, accepted, result) =>
        if accepted {
          AcceptedKeepsTexts(w, i, result);
        } else {
          RefusedKeepsTexts(w, i, result);
        }
      case Commit(i) => CommitKeepsTexts(w, i);
      case _ => QuietStepKeepsTexts(w, e);
    }
  }

  // ---------- Runs ----------

  ghost predicate LeavesTextsRun(w: World, events: seq<Event>)
    requires AllowedRun(w, events)
    decreases |events|
  {
    events == [] || (LeavesTextsEvent(w, events[0]) && LeavesTextsRun(Apply(w, events[0]), events[1..]))
  }

  lemma {:induction false} RunKeepsTexts(w: World, events: seq<Event>)
    requires Invariant(w) && SlotsIncrease(w) && TextsAgree(w)
    requires AllowedRun(w, events) && TimelyRun(w, events) && LeavesTextsRun(w, events)
    ensures TextsAgree(Run(w, events))
    decreases |events|
  {
    hide Apply, Allowed, TimelyEvent, LeavesTextsEvent, Invariant, SlotsIncrease, TextsAgree;
    if events != [] {
      StepKeepsIncreaseIff(w, events[0]);
      StepKeepsTextsIff(w, events[0]);
      OneStepHolds(w, events[0]);
      RunKeepsTexts(Apply(w, events[0]), events[1..]);
    }
  }

  lemma {:induction false} StartTextsAgree(rows: Rows, workers: nat)
    ensures TextsAgree(Start(rows, workers)) && SlotsIncrease(Start(rows, workers))
  {
  }

  /** The text the message service keeps for an id: that of the first message sent under it. */
  function KeptText(sends: seq<Candidate>, id: string): Option<string> {
    if sends == [] then None
    else if BizIdOf(sends[0]) == id then Some(sends[0].item.content)
    else KeptText(sends[1..], id)
  }

  lemma {:induction false} KeptTextIsCommon(sends: seq<Candidate>, c: Candidate)
    requires c in sends
    requires forall other :: other in sends && BizIdOf(other) == BizIdOf(c) ==> other.item.content == c.item.content
    ensures KeptText(sends, BizIdOf(c)) == Some(c.item.content)
  {
    hide BizIdOf;
    if BizIdOf(sends[0]) != BizIdOf(c) {
      assert sends == [sends[0]] + sends[1..];
      KeptTextIsCommon(sends[1..], c);
    }
  }

  lemma {:induction false} LoggedTextIsKept(w: World, k: nat)
    requires LoggedAgree(w) && SendsHeld(w) && k < |w.attempts| && w.attempts[k].success
    ensures w.attempts[k].sent.Some?
    ensures KeptText(w.sends, BizIdOf(w.attempts[k].sent.value)) == Some(w.attempts[k].sent.value.item.content)
  {
    var c := w.attempts[k].sent.value;
    hide BizIdOf, IdsOfSends;
    forall other | other in w.sends && BizIdOf(other) == BizIdOf(c) ensures other.item.content == c.item.content {
      IdsMatchIff(other, c);
    }
    KeptTextIsCommon(w.sends, c);
  }

  /**
   Over every run with timely edits that leave the texts of unlogged sends, the message service keeps for every
   success in the stored log the text the log shows.
   */
  lemma {:induction false} LoggedTextsAreKept(rows: Rows, workers: nat, events: seq<Event>, k: nat)
    requires Kept(rows) && AllowedRun(Start(rows, workers), events)
    requires TimelyRun(Start(rows, workers), events) && LeavesTextsRun(Start(rows, workers), events)
    requires k < |Run(Start(rows, workers), events).attempts| && Run(Start(rows, workers), events).attempts[k].success
    ensures var end := Run(Start(rows, workers), events);
            && end.attempts[k].sent.Some? && |rows.logs| + k < |end.rows.logs|
            && KeptText(end.sends, BizIdOf(end.attempts[k].sent.value)) == Some(end.rows.logs[|rows.logs| + k].content)
  {
    hide AllowedRun, TimelyRun, LeavesTextsRun, Run, BizIdOf, KeptText, RowLockHeld, RowsKept, SlotsHeld, LeasesHeld,
         DeliveriesHeld, SendsHeld, UnloggedAgree, InFlightAgrees, LoggedAgree, SlotsIncrease;
    StartHolds(rows, workers);
    StartTextsAgree(rows, workers);
    RunKeepsTexts(Start(rows, workers), events);
    RunHolds(Start(rows, workers), events);
    LogShowsAttempts(rows, workers, events);
    hide Start;
    var end := Run(Start(rows, workers), events);
    assert Shows(end.rows.logs[|rows.logs| + k], end.attempts[k]);
    LoggedTextIsKept(end, k);
  }
}
