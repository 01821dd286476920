/** What is sent again after a crash: the same message, unless its text was edited in between. */
module AutoMessageReplays {
  import opened Prelude
  import opened GoStrings
  import opened AutoMessageRows
  import opened AutoMessageListing
  import opened AutoMessageRotation
  import opened AutoMessageService
  import opened AutoMessageScheduler
  import opened AutoMessageSafety
  import opened AutoMessageSlots
  import opened AutoMessageDeliveries

  // ---------- Unedited rows ----------

  lemma {:induction false} StepChangesRowsOnlyWithLogOrEdit(w: World, e: Event)
    requires Allowed(w, e)
    ensures var next := Apply(w, e);
            && |w.attempts| <= |next.attempts|
            && w.edits <= next.edits
            && (|w.attempts| == |next.attempts| && w.edits == next.edits ==> next.rows == w.rows)
  {
    hide Take, Possible, Rotation, Pending, BizIdOf, CandidateOf;
  }

  /** The log only grows, and rows change only with it or with an edit. */
  lemma {:induction false} RowsChangeOnlyWithLogOrEdit(w: World, events: seq<Event>)
    requires AllowedRun(w, events)
    ensures var end := Run(w, events);
            && |w.attempts| <= |end.attempts|
            && w.edits <= end.edits
            && (|w.attempts| == |end.attempts| && w.edits == end.edits ==> end.rows == w.rows)
    decreases |events|
  {
    if events != [] {
      StepChangesRowsOnlyWithLogOrEdit(w, events[0]);
      hide Apply, Allowed;
      RowsChangeOnlyWithLogOrEdit(Apply(w, events[0]), events[1..]);
    }
  }

  /**
   Crash replay: if a transaction's worker dies after sending and nothing is logged or edited until some
   worker opens the next transaction, that one sends the same message under the same business id, which the
   message service recognises.
   */
  lemma {:induction false} ReplayRepeatsMessage(w: World, first: nat, events: seq<Event>, second: nat)
    requires AllowedRun(w, events)
    requires Allowed(w, Begin(first, true)) && Apply(w, Begin(first, true)).rowLock == Some(first)
    requires var end := Run(w, events);
             && |w.attempts| == |end.attempts| && w.edits == end.edits
             && Allowed(end, Begin(second, true)) && Apply(end, Begin(second, true)).rowLock == Some(second)
    ensures var sent := Apply(w, Begin(first, true)).workers[first].candidate;
            var repeated := Apply(Run(w, events), Begin(second, true)).workers[second].candidate;
            sent == repeated && BizIdOf(sent) == BizIdOf(repeated)
  {
    hide Run, AllowedRun, CandidateOf, Rotation, BizIdOf, Pending, Dissolved, NothingToSend;
    RowsChangeOnlyWithLogOrEdit(w, events);
  }

  // ---------- Edits of the text ----------

  /** An item whose text is replaced, if it is the live one of this id. */
  function Reworded(item: Item, id: int, content: string): Item {
    if item.id == id && !item.deleted then item.(content := content) else item
  }

  function RewordedItems(items: seq<Item>, id: int, content: string): (r: seq<Item>)
    ensures |r| == |items|
  {
    seq(|items|, i requires 0 <= i < |items| => Reworded(items[i], id, content))
  }

  lemma {:induction false} RewordedStep(items: seq<Item>, id: int, content: string)
    requires items != []
    ensures Init(RewordedItems(items, id, content)) == RewordedItems(Init(items), id, content)
    ensures Last(RewordedItems(items, id, content)) == Reworded(Last(items), id, content)
    ensures RewordedItems(items, id, content)
         == RewordedItems(Init(items), id, content) + [Reworded(Last(items), id, content)]
  {
  }

  lemma {:induction false} LiveOfReworded(items: seq<Item>, id: int, content: string)
    ensures Live(RewordedItems(items, id, content)) == RewordedItems(Live(items), id, content)
  {
    if items != [] {
      LiveOfReworded(Init(items), id, content);
      RewordedStep(items, id, content);
      if !Last(items).deleted {
        RewordedStep(Live(items), id, content);
      }
      hide RewordedItems;
    }
  }

  lemma {:induction false} EnabledOfReworded(items: seq<Item>, id: int, content: string)
    ensures Enabled(RewordedItems(items, id, content)) == RewordedItems(Enabled(items), id, content)
  {
    if items != [] {
      EnabledOfReworded(Init(items), id, content);
      RewordedStep(items, id, content);
      if Last(items).enabled {
        RewordedStep(Enabled(items), id, content);
      }
      hide RewordedItems;
    }
  }

  lemma {:induction false} InsertOfReworded(item: Item, ordered: seq<Item>, id: int, content: string)
    ensures Insert(Reworded(item, id, content), RewordedItems(ordered, id, content))
         == RewordedItems(Insert(item, ordered), id, content)
  {
    RewordedStep(Insert(item, ordered), id, content);
    if ordered != [] {
      RewordedStep(ordered, id, content);
      if Before(item, Last(ordered)) {
        InsertOfReworded(item, Init(ordered), id, content);
      }
      hide RewordedItems;
    }
  }

  lemma {:induction false} OrderedOfReworded(items: seq<Item>, id: int, content: string)
    ensures Ordered(RewordedItems(items, id, content)) == RewordedItems(Ordered(items), id, content)
  {
    hide Insert;
    if items != [] {
      OrderedOfReworded(Init(items), id, content);
      RewordedStep(items, id, content);
      InsertOfReworded(Last(items), Ordered(Init(items)), id, content);
      hide RewordedItems, Reworded;
    }
  }

  /** An edit of an enabled item's text changes nothing else about its row. */
  lemma {:induction false} EditRewords(items: seq<Item>, item: Item, content: string)
    requires DistinctIds(items) && item in items && item.enabled && !item.deleted
    ensures EditRow(items, item.id, content, true) == RewordedItems(items, item.id, content)
  {
    var i :| 0 <= i < |items| && items[i] == item;
    forall j | 0 <= j < |items| && items[j].id == item.id ensures j == i {
    }
  }

  /** The rotation holds live enabled rows of the table. */
  lemma {:induction false} RotationIsStored(rows: Rows, k: nat)
    requires k < |Rotation(rows)|
    ensures var item := Rotation(rows)[k];
            item in rows.items && item.enabled && !item.deleted
  {
    LiveKeepsLiveItems(rows.items);
    OrderedKeepsItems(Live(rows.items));
    EnabledKeepsEnabledItems(Ordered(Live(rows.items)));
    assert Rotation(rows)[k] in Rotation(rows);
    hide Live, Ordered, Enabled;
  }

  lemma {:induction false} RewordedRotation(rows: Rows, item: Item, content: string)
    requires DistinctIds(rows.items) && item in rows.items && item.enabled && !item.deleted
    ensures Rotation(rows.(items := EditRow(rows.items, item.id, content, true)))
         == RewordedItems(Rotation(rows), item.id, content)
  {
    EditRewords(rows.items, item, content);
    LiveOfReworded(rows.items, item.id, content);
    OrderedOfReworded(Live(rows.items), item.id, content);
    EnabledOfReworded(Ordered(Live(rows.items)), item.id, content);
    hide RewordedItems, EditRow, Live, Ordered, Enabled;
  }

  /** An edit of the text that is next keeps its turn and its slot, and so its business id. */
  lemma {:induction false} EditKeepsPendingId(rows: Rows, content: string)
    requires CanSend(rows) && DistinctIds(rows.items)
    ensures var c := CandidateOf(rows);
            var after := Normalized(rows.(items := EditRow(rows.items, c.item.id, content, true)));
            && CanSend(after)
            && CandidateOf(after) == c.(item := c.item.(content := content))
            && BizIdOf(CandidateOf(after)) == BizIdOf(c)
  {
    var index := ClampedIndex(rows.config.value.currentIndex, |Rotation(rows)|);
    RotationIsStored(rows, index);
    RewordedRotation(rows, CandidateOf(rows).item, content);
    hide EditRow, Rotation, BizId;
    var edited := rows.(items := EditRow(rows.items, CandidateOf(rows).item.id, content, true));
    RotationDependsOnItems(edited, Normalized(edited));
  }

  lemma {:induction false} TextEditTaken(rows: Rows, id: int, input: ItemInput, restamped: bool, now: int)
    requires rows.config.Some? && InputError(input) == None && input.enabled
    requires Changes(rows.items, id, TrimSpace(input.content), true, restamped)
    ensures Possible(rows, UpdateItem(id, input, restamped))
    ensures Take(rows, UpdateItem(id, input, restamped), now)
         == (Ok(()), Normalized(rows.(items := EditRow(rows.items, id, TrimSpace(input.content), true))))
  {
    hide EditRow, Normalized, TrimSpace, InputError, Changes, Rotation;
    assert Ensured(rows) == rows;
  }

  /**
   But an edit of the text between a send and its replay is lost: the replay has the id of the send, so the
   message service keeps the text it has. The texts agree exactly when the edit leaves the text as it was.
   */
  lemma {:induction false} EditedReplayKeepsId(w: World, input: ItemInput, restamped: bool, now: int)
    requires RowsKept(w) && w.rowLock == None && CanSend(w.rows) && InputError(input) == None && input.enabled
    requires Changes(w.rows.items, CandidateOf(w.rows).item.id, TrimSpace(input.content), true, restamped)
    ensures var c := CandidateOf(w.rows);
            var edit := Edit(UpdateItem(c.item.id, input, restamped), now);
            && Allowed(w, edit)
            && var next := Apply(w, edit);
               && CanSend(next.rows) && next.delivered == w.delivered && next.sends == w.sends
               && BizIdOf(CandidateOf(next.rows)) == BizIdOf(c)
               && CandidateOf(next.rows).item.content == TrimSpace(input.content)
               && (CandidateOf(next.rows) == c <==> TrimSpace(input.content) == c.item.content)
  {
    hide CandidateOf, BizIdOf, TrimSpace, InputError, Changes, Rotation, Take, Pending;
    EditKeepsPendingId(w.rows, TrimSpace(input.content));
    TextEditTaken(w.rows, CandidateOf(w.rows).item.id, input, restamped, now);
    hide EditRow, CanSend, Normalized;
  }

  const NEW_TEXT := "goodbye"
  const REWORDED_ITEM := ONLY_ITEM.(content := NEW_TEXT)
  const NEW_TEXT_EDIT := UpdateItem(1, ItemInput(1, 1, NEW_TEXT, TEXT, true), true)

  /** A run in which the worker dies after sending, and the text is edited before the replay. */
  function EditBeforeReplay(): seq<Event> {
    ([List(0, 1800), Acquire(0, 1)] + [Begin(0, true), Send(0, true, ACCEPTED)])
    + ([Crash(0), Expire] + ([Edit(NEW_TEXT_EDIT, 1800)] + UndisturbedRound(1800, 2)))
  }

  lemma {:induction false} NewTextIsAccepted()
    ensures TrimSpace(NEW_TEXT) == NEW_TEXT && InputError(NEW_TEXT_EDIT.input) == None
  {
    TrimSpaceFixes(NEW_TEXT);
  }

  lemma {:induction false} NewTextIsDue(w: World)
    requires AtRest(w) && w.rows == ONE_ITEM_ROWS
    ensures Allowed(w, Edit(NEW_TEXT_EDIT, 1800))
    ensures var after := Apply(w, Edit(NEW_TEXT_EDIT, 1800));
            && OneItemDue(after, REWORDED_ITEM, 1800, 1800)
            && after.requests == w.requests && after.attempts == w.attempts && after.sends == w.sends
            && after.delivered == w.delivered
  {
    NewTextIsAccepted();
    hide TrimSpace, Pending;
    assert w.rows.items[0] == ONLY_ITEM;
    assert EditRow(w.rows.items, 1, NEW_TEXT, true) == [REWORDED_ITEM];
    OneItemRotation(w.rows.(items := [REWORDED_ITEM]), REWORDED_ITEM);
    hide Rotation;
  }

  /** The worker that sent dies and its lease expires; the rows are as they were. */
  lemma {:induction false} CrashAfterSend(start: World)
    requires OneItemDue(start, ONLY_ITEM, 1800, 1800) && 1 !in start.requests
    ensures var sent := Sent(start, ONLY_ITEM, 1800, 1800, 1);
            && AllowedRun(sent, [Crash(0), Expire])
            && Run(sent, [Crash(0), Expire])
            == sent.(workers := [Idle], rowLock := None, key := None)
  {
    hide BizIdOf, Run, AllowedRun;
    RunOfTwo(Sent(start, ONLY_ITEM, 1800, 1800, 1), Crash(0), Expire);
  }

  /**
   In this run the log shows the new text as sent, and the attempt succeeded; but both sends have one id, the
   first of them had the old text, and one message is kept.
   */
  lemma {:induction false} EditBeforeReplayLosesText()
    ensures Kept(ONE_ITEM_ROWS) && AllowedRun(Start(ONE_ITEM_ROWS, 1), EditBeforeReplay())
    ensures var end := Run(Start(ONE_ITEM_ROWS, 1), EditBeforeReplay());
            && |end.attempts| == 1 && end.attempts[0].success
            && end.attempts[0].sent == Some(OnlyCandidate(REWORDED_ITEM, 1800))
            && end.sends == [OnlyCandidate(ONLY_ITEM, 1800), OnlyCandidate(REWORDED_ITEM, 1800)]
            && REWORDED_ITEM.content != ONLY_ITEM.content
            && |end.delivered| == 1
  {
    hide Run, AllowedRun, BizIdOf, Rotation, Attempted;
    OneItemRowsAreKept();
    var start := Start(ONE_ITEM_ROWS, 1);
    var first := [List(0, 1800), Acquire(0, 1)] + [Begin(0, true), Send(0, true, ACCEPTED)];
    RoundSends(start, ONLY_ITEM, 1800, 1800, 1);
    CrashAfterSend(start);
    var crashed := Run(Sent(start, ONLY_ITEM, 1800, 1800, 1), [Crash(0), Expire]);
    NewTextIsDue(crashed);
    hide Apply, Allowed;
    var edited := Apply(crashed, Edit(NEW_TEXT_EDIT, 1800));
    RunOfOne(crashed, Edit(NEW_TEXT_EDIT, 1800));
    UndisturbedRoundSends(edited, REWORDED_ITEM, 1800, 1800, 2);
    var rest := [Edit(NEW_TEXT_EDIT, 1800)] + UndisturbedRound(1800, 2);
    RunAppend(crashed, [Edit(NEW_TEXT_EDIT, 1800)], UndisturbedRound(1800, 2));
    RunAppend(Sent(start, ONLY_ITEM, 1800, 1800, 1), [Crash(0), Expire], rest);
    RunAppend(start, first, [Crash(0), Expire] + rest);
    IdsMatchIff(OnlyCandidate(ONLY_ITEM, 1800), OnlyCandidate(REWORDED_ITEM, 1800));
    assert Run(edited, UndisturbedRound(1800, 2)).delivered == {BizIdOf(OnlyCandidate(ONLY_ITEM, 1800))};
  }
}
